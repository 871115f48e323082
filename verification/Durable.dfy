/** The durable half: what the files say in every reachable state, whose cache a
    cache file is, and what a restart preserves. */
module Durable {
  import opened Base
  import opened Envelope
  import opened VaultCaches
  import opened Service
  import opened Machine
  import Residency

  /** Every file write and delete of the step succeeds, and a restart reads its files. */
  predicate DiskOk(a: Action)
  {
    (a.Run? ==> a.env.files.Fine() && a.env.unlock.diskOk) && (a.Restart? ==> a.readable.Fine())
  }

  predicate AllDiskOk(actions: seq<Action>)
  {
    forall i | 0 <= i < |actions| :: DiskOk(actions[i])
  }

  predicate IsOf(v: VaultCache, l: LoginState) { v.email == l.email && v.serverUrl == l.serverUrl }

  /** The bytes are this record, sealed under this key or under none. */
  predicate SealedAs(c: Crypto, bytes: Bytes, v: VaultCache, cek: Option<Key>, nonce: Nonce24)
  {
    Serialise(Seal(c, v, cek, nonce)) == Ok(bytes)
  }

  /** The bytes are a sealed record of this account. */
  ghost predicate Owned(c: Crypto, bytes: Bytes, l: LoginState)
  {
    exists v: VaultCache, cek: Option<Key>, nonce: Nonce24 :: SealedAs(c, bytes, v, cek, nonce) && IsOf(v, l)
  }

  ghost predicate CacheOwned(c: Crypto, d: Daemon)
  {
    d.store.cache.Some? ==> d.svc.login.Some? && Owned(c, d.store.cache.value, d.svc.login.value)
  }

  predicate LoginMirrored(d: Daemon)
  {
    d.store.login == (if d.svc.login.Some? then Holds(d.svc.login.value) else Missing)
  }

  /** The backoff file holds the count, and the epoch of the last attempt. */
  predicate BackoffMirrored(cfg: Config, d: Daemon, now: Instant)
  {
    && (d.svc.attempts == 0 ==> d.store.backoff.Missing? && d.svc.lastAttempt.None?)
    && (d.svc.attempts > 0 ==>
          && d.store.backoff.Holds? && d.store.backoff.value.attempts == d.svc.attempts
          && d.store.backoff.value.lastEpoch.Some?
          && d.store.backoff.value.lastEpoch.value <= EpochSeconds(now, cfg.offset))
    && (d.svc.lastAttempt.Some? ==>
          && d.svc.attempts > 0 && d.svc.lastAttempt.value <= now
          && d.store.backoff.value.lastEpoch == Some(EpochSeconds(d.svc.lastAttempt.value, cfg.offset)))
  }

  ghost predicate Mirrored(cfg: Config, d: Daemon, now: Instant)
  {
    CacheOwned(cfg.crypto, d) && LoginMirrored(d) && BackoffMirrored(cfg, d, now)
  }

  ghost predicate Inv(cfg: Config, s: Sys)
  {
    Residency.Inv(s) && Mirrored(cfg, s.daemon, s.now)
  }

  /** A store a previous process can have left behind. */
  ghost predicate Consistent(cfg: Config, store: Store, now: Instant)
  {
    && !store.login.Corrupt? && !store.backoff.Corrupt?
    && (store.cache.Some? ==> store.login.Holds? && Owned(cfg.crypto, store.cache.value, store.login.value))
    && (store.backoff.Holds? ==>
          && store.backoff.value.attempts > 0 && store.backoff.value.lastEpoch.Some?
          && store.backoff.value.lastEpoch.value <= EpochSeconds(now, cfg.offset))
  }

  // --- Clock arithmetic ---

  lemma DivUnique(x: int, q: int)
    requires q * SECOND <= x < q * SECOND + SECOND
    ensures x / SECOND == q
  {
  }

  lemma EpochGrows(a: Instant, b: Instant, offset: int)
    requires a <= b
    ensures EpochSeconds(a, offset) <= EpochSeconds(b, offset)
  {
  }

  /** A restored instant lies in the second the file names. */
  lemma RestoredEpoch(epoch: nat, now: Instant, offset: int)
    requires epoch <= EpochSeconds(now, offset)
    ensures var t := now - SaturatingSub(EpochSeconds(now, offset), epoch) * SECOND;
            t <= now && EpochSeconds(t, offset) == epoch
  {
    var e := EpochSeconds(now, offset);
    var t := now - (e - epoch) * SECOND;
    if now + offset >= 0 {
      DivUnique(Max(0, t + offset), epoch);
    }
  }

  // --- One section ---

  lemma BuiltIsOwned(c: Crypto, d: Daemon, kdf: CachedKdf, userKey: string, privateKey: string, userId: Option<string>,
                     hash: Hash, io: UnlockInputs)
    requires Sound(d.svc) && d.svc.login.Some? && CacheOwned(c, d) && io.diskOk
    ensures CacheOwned(c, d.(store := BuildCache(c, d, kdf, userKey, privateKey, userId, hash, io)))
  {
    var store := BuildCache(c, d, kdf, userKey, privateKey, userId, hash, io);
    if ToKdf(kdf).Ok? {
      var v := Build(c, ToKdf(kdf).value, userKey, privateKey, userId, d.svc.email.value, d.svc.serverUrl.value, [],
                     None, hash);
      var cek := CekForSealing(d.store, io).0;
      if Serialise(Seal(c, v, cek, io.nonce)).Ok? {
        assert SealedAs(c, store.cache.value, v, cek, io.nonce);
      }
    }
  }

  lemma UnlockKeepsOwned(c: Crypto, d: Daemon, password: Password, io: UnlockInputs)
    requires Sound(d.svc) && CacheOwned(c, d) && io.diskOk
    ensures CacheOwned(c, Unlock(c, d, password, io).after)
  {
    hide BuildCache, Owned, CachedKeys;
    forall d': Daemon, kdf: CachedKdf, uk: string, pk: string, uid: Option<string>, hash: Hash
      | Sound(d'.svc) && d'.svc.login.Some? && CacheOwned(c, d')
      ensures CacheOwned(c, d'.(store := BuildCache(c, d', kdf, uk, pk, uid, hash, io)))
    {
      BuiltIsOwned(c, d', kdf, uk, pk, uid, hash, io);
    }
  }

  lemma UnlockMirrored(cfg: Config, now: Instant, d: Daemon, password: Password, io: UnlockInputs)
    requires Sound(d.svc) && Mirrored(cfg, d, now) && io.diskOk
    ensures Mirrored(cfg, Unlock(cfg.crypto, d, password, io).after, now)
  {
    hide Unlock, Owned;
    UnlockSound(cfg.crypto, d, password, io);
    UnlockKeepsOwned(cfg.crypto, d, password, io);
  }

  /** What the mirror depends on, for a section that writes no file. */
  predicate SameDurable(d: Daemon, e: Daemon)
  {
    && e.store == d.store && e.svc.login == d.svc.login && e.svc.attempts == d.svc.attempts
    && e.svc.lastAttempt == d.svc.lastAttempt
  }

  lemma SameDurableMirrored(cfg: Config, d: Daemon, e: Daemon, now: Instant)
    requires Mirrored(cfg, d, now) && SameDurable(d, e)
    ensures Mirrored(cfg, e, now)
  {
    hide Owned, EpochSeconds;
  }

  lemma GateMirrored(cfg: Config, now: Instant, tid: Tid, th: Thread, d: Daemon, draws: nat)
    requires th.pc.GateTouch? || th.pc.GateState? || th.pc.GateResolve? || th.pc.GateCheck?
    requires Mirrored(cfg, d, now)
    ensures Mirrored(cfg, ExecGate(cfg, now, tid, th, d, draws).daemon, now)
  {
    hide Mirrored;
    SameDurableMirrored(cfg, d, ExecGate(cfg, now, tid, th, d, draws).daemon, now);
  }

  lemma ApprovalMirrored(cfg: Config, now: Instant, tid: Tid, th: Thread, d: Daemon, draws: nat, env: Env)
    requires IsApproval(th.pc)
    requires Mirrored(cfg, d, now)
    ensures Mirrored(cfg, ExecApproval(cfg, now, tid, th, d, draws, env).daemon, now)
  {
    hide Mirrored;
    SameDurableMirrored(cfg, d, ExecApproval(cfg, now, tid, th, d, draws, env).daemon, now);
  }

  lemma AgentMirrored(cfg: Config, now: Instant, tid: Tid, th: Thread, d: Daemon, draws: nat, env: Env)
    requires IsAgent(th.pc) && Sound(d.svc) && Mirrored(cfg, d, now) && env.files.Fine() && env.unlock.diskOk
    ensures Mirrored(cfg, ExecAgent(cfg, now, tid, th, d, draws, env).daemon, now)
  {
    hide Unlock, Owned;
    if th.pc.AgentUnlock? {
      UnlockMirrored(cfg, now, d, th.pc.password, env.unlock.(now := now));
    }
  }

  lemma LoginMirroredStep(cfg: Config, now: Instant, tid: Tid, th: Thread, d: Daemon, draws: nat, env: Env)
    requires IsLogin(th.pc) && Sound(d.svc) && Mirrored(cfg, d, now) && env.files.Fine() && env.unlock.diskOk
    ensures Mirrored(cfg, ExecLogin(cfg, now, tid, th, d, draws, env).daemon, now)
  {
    hide Unlock, Owned;
    if th.pc.UnlockRun? {
      UnlockMirrored(cfg, now, d, th.pc.password, env.unlock.(now := now));
    }
  }

  lemma AuthorizeMirrored(cfg: Config, now: Instant, tid: Tid, th: Thread, d: Daemon, draws: nat, env: Env)
    requires IsAuthorize(th.pc) && Sound(d.svc) && Mirrored(cfg, d, now) && env.files.Fine() && env.unlock.diskOk
    ensures Mirrored(cfg, ExecAuthorize(cfg, now, tid, th, d, draws, env).daemon, now)
  {
    hide Unlock, Owned;
    if th.pc.AuthorizeUnlock? {
      UnlockMirrored(cfg, now, d, th.pc.password, env.unlock.(now := now));
    }
  }

  lemma SyncMirrored(cfg: Config, now: Instant, th: Thread, d: Daemon, draws: nat, env: Env)
    requires IsSync(th.pc) && Mirrored(cfg, d, now)
    ensures Mirrored(cfg, ExecSync(cfg, now, th, d, draws, env).daemon, now)
  {
    hide Owned;
  }

  lemma OtherMirrored(cfg: Config, now: Instant, tid: Tid, th: Thread, d: Daemon, draws: nat, env: Env)
    requires Mirrored(cfg, d, now) && env.files.Fine()
    ensures Mirrored(cfg, ExecOther(now, tid, th, d, draws, env).daemon, now)
  {
    hide Owned;
  }

  lemma StartMirrored(cfg: Config, store: Store, prompt: PromptMethod, now: Instant)
    requires Consistent(cfg, store, now)
    ensures Mirrored(cfg, Daemon(Start(store, prompt, now, EpochSeconds(now, cfg.offset), cfg.earliest), store), now)
  {
    hide Owned;
    if store.backoff.Holds? {
      RestoredEpoch(store.backoff.value.lastEpoch.value, now, cfg.offset);
    }
  }

  lemma StepMirrored(cfg: Config, s: Sys, a: Action)
    requires Inv(cfg, s) && DiskOk(a)
    ensures Inv(cfg, Next(cfg, s, a))
  {
    hide ExecGate, ExecApproval, ExecAgent, ExecLogin, ExecAuthorize, ExecSync, ExecOther, Owned;
    Residency.StepSound(cfg, s, a);
    match a
    case Run(tid, env) =>
      if tid in s.threads {
        RunMirrored(cfg, s.now, tid, s.threads[tid], s.daemon, s.draws, env);
      }
    case Wait(w) => EpochGrows(s.now, s.now + w, cfg.offset);
    case Restart(readable) =>
      assert Seen(s.daemon.store, readable) == s.daemon.store;
      StartMirrored(cfg, s.daemon.store, s.daemon.svc.prompt, s.now);
    case _ =>
  }

  lemma RunMirrored(cfg: Config, now: Instant, tid: Tid, th: Thread, d: Daemon, draws: nat, env: Env)
    requires Sound(d.svc) && Mirrored(cfg, d, now) && env.files.Fine() && env.unlock.diskOk
    ensures Mirrored(cfg, Exec(cfg, now, tid, th, d, draws, env).daemon, now)
  {
    hide ExecGate, ExecApproval, ExecAgent, ExecLogin, ExecAuthorize, ExecSync, ExecOther, Mirrored;
    if th.pc.GateTouch? || th.pc.GateState? || th.pc.GateResolve? || th.pc.GateCheck? {
      GateMirrored(cfg, now, tid, th, d, draws);
    } else if IsApproval(th.pc) {
      ApprovalMirrored(cfg, now, tid, th, d, draws, env);
    } else if IsAgent(th.pc) {
      AgentMirrored(cfg, now, tid, th, d, draws, env);
    } else if IsLogin(th.pc) {
      LoginMirroredStep(cfg, now, tid, th, d, draws, env);
    } else if IsAuthorize(th.pc) {
      AuthorizeMirrored(cfg, now, tid, th, d, draws, env);
    } else if IsSync(th.pc) {
      SyncMirrored(cfg, now, th, d, draws, env);
    } else {
      OtherMirrored(cfg, now, tid, th, d, draws, env);
    }
  }

  lemma {:induction false} RunsMirrored(cfg: Config, s: Sys, actions: seq<Action>)
    requires Inv(cfg, s) && AllDiskOk(actions)
    ensures Inv(cfg, Runs(cfg, s, actions))
    decreases |actions|
  {
    hide Next, Inv;
    if actions != [] {
      StepMirrored(cfg, s, actions[0]);
      RunsMirrored(cfg, Next(cfg, s, actions[0]), actions[1..]);
    }
  }

  /** In every reachable state of memory and disk, if file operations succeed: a
      cache file is a sealed record of the account that is logged in, there is
      none when nobody is, and the two state files say what memory says. */
  lemma CacheOwnership(cfg: Config, store: Store, prompt: PromptMethod, now: Instant, actions: seq<Action>)
    requires Consistent(cfg, store, now) && AllDiskOk(actions)
    ensures Inv(cfg, Runs(cfg, Boot(cfg, store, prompt, now), actions))
  {
    Residency.KeyResidency(cfg, store, prompt, now, []);
    StartMirrored(cfg, store, prompt, now);
    RunsMirrored(cfg, Boot(cfg, store, prompt, now), actions);
  }

  lemma EmptyStoreConsistent(cfg: Config, now: Instant, cek: Option<Key>)
    ensures Consistent(cfg, Store(Missing, Missing, None, cek), now)
  {
  }

  // --- What opens is the account's ---

  /** Bytes sealed as a record open to that record or not at all, for every key. */
  lemma SealedOpens(c: Crypto, bytes: Bytes, v: VaultCache, cek: Option<Key>, nonce: Nonce24, offered: Option<Key>)
    requires Ideal(c) && WrongKeyFails(c) && SealedAs(c, bytes, v, cek, nonce) && Parse(bytes).Ok?
    ensures Open(c, Parse(bytes).value, offered) == if cek.None? || offered == cek then Ok(v) else Err(Internal)
  {
    RoundTripIffBodyFits(Seal(c, v, cek, nonce));
    OpenSealedIff(c, v, cek, nonce, offered);
  }

  /** No bytes are sealed as two records, whatever the two keys. */
  lemma SealedOnce(c: Crypto, bytes: Bytes, v: VaultCache, k: Option<Key>, n: Nonce24, w: VaultCache, k': Option<Key>,
                   n': Nonce24)
    requires Ideal(c) && WrongKeyFails(c) && SealedAs(c, bytes, v, k, n) && SealedAs(c, bytes, w, k', n')
    ensures v == w
  {
    var e, e' := Seal(c, v, k, n), Seal(c, w, k', n');
    SameBytesSameEnvelope(e, e');
    OpenSealedIff(c, v, k, n, k);
    OpenSealedIff(c, w, k', n', k);
    OpenSealedIff(c, w, k', n', k');
  }

  lemma SameBytesSameEnvelope(e: CacheEnvelope, f: CacheEnvelope)
    requires Serialise(e).Ok? && Serialise(e) == Serialise(f)
    ensures e == f
  {
    HeaderFields(e);
    HeaderFields(f);
    var bytes := Serialise(e).value;
    assert bytes[..HEADER_SIZE] == Header(e) && bytes[..HEADER_SIZE] == Header(f);
    assert bytes[HEADER_SIZE..] == e.body && bytes[HEADER_SIZE..] == f.body;
  }

  /** So a cache file has one owner at most. */
  lemma OneOwner(c: Crypto, bytes: Bytes, l: LoginState, m: LoginState)
    requires Ideal(c) && WrongKeyFails(c) && Owned(c, bytes, l) && Owned(c, bytes, m)
    ensures l == m
  {
    var v: VaultCache, k, n :| SealedAs(c, bytes, v, k, n) && IsOf(v, l);
    var w: VaultCache, k', n' :| SealedAs(c, bytes, w, k', n') && IsOf(w, m);
    SealedOnce(c, bytes, v, k, n, w, k', n');
  }

  lemma OwnedOpens(c: Crypto, d: Daemon, e: CacheEnvelope, sight: Sight, keystore: Keystore, password: Password)
    requires Ideal(c) && WrongKeyFails(c) && CacheOwned(c, d) && ReadCacheFile(d.store, sight) == Ok(Some(e))
    ensures d.svc.login.Some?
    ensures var r := Open(c, e, LoadedCek(d.store, keystore)); r.Ok? ==> IsOf(r.value, d.svc.login.value)
    ensures var r := CachedKeys(c, d.store, password, e, keystore); r.Ok? ==> IsOf(r.value.0, d.svc.login.value)
  {
    var bytes := d.store.cache.value;
    var v: VaultCache, cek, nonce :| SealedAs(c, bytes, v, cek, nonce) && IsOf(v, d.svc.login.value);
    SealedOpens(c, bytes, v, cek, nonce, LoadedCek(d.store, keystore));
  }

  /** In every reachable state, if file operations succeed: whatever the cache file
      opens to under whatever the credential store holds by then (the key it was
      sealed under, none, or one that replaced it) is a record of the account
      that is logged in, and so is the record a cache unlock takes its keys from.
      That is what lets the unlock not compare them. */
  lemma OpenedRecordIsTheAccounts(cfg: Config, store: Store, prompt: PromptMethod, now: Instant, actions: seq<Action>,
                                  e: CacheEnvelope, sight: Sight, keystore: Keystore,
                                  password: Password)
    requires Ideal(cfg.crypto) && WrongKeyFails(cfg.crypto)
    requires Consistent(cfg, store, now) && AllDiskOk(actions)
    requires ReadCacheFile(Runs(cfg, Boot(cfg, store, prompt, now), actions).daemon.store, sight) == Ok(Some(e))
    ensures var d := Runs(cfg, Boot(cfg, store, prompt, now), actions).daemon;
            && d.svc.login.Some?
            && (var r := Open(cfg.crypto, e, LoadedCek(d.store, keystore)); r.Ok? ==> IsOf(r.value, d.svc.login.value))
            && (var r := CachedKeys(cfg.crypto, d.store, password, e, keystore);
                r.Ok? ==> IsOf(r.value.0, d.svc.login.value))
  {
    hide Ideal, WrongKeyFails, Consistent, Owned;
    CacheOwnership(cfg, store, prompt, now, actions);
    OwnedOpens(cfg.crypto, Runs(cfg, Boot(cfg, store, prompt, now), actions).daemon, e, sight, keystore, password);
  }

  /** One way to lose that, on its own: a logout leaves a cache behind iff one
      existed and could not be removed, and it is then not the next account's. */
  lemma FailedDeleteLeavesForeignCache(c: Crypto, d: Daemon, keystoreOk: bool, files: DiskIo, email: string,
                                       url: string, now: Instant)
    requires Ideal(c) && WrongKeyFails(c) && CacheOwned(c, d)
    ensures var out := Logout(d, keystoreOk, files);
            var next := Login(out, email, Some(url), None, now, DiskIo(Succeeds, Succeeds, true)).after;
            && next.svc.login == Some(LoginState(email, url))
            && (next.store.cache.Some? <==> d.store.cache.Some? && !files.cache)
            && (next.store.cache.Some? && d.svc.login != Some(LoginState(email, url)) ==> !CacheOwned(c, next))
  {
    hide Ideal, WrongKeyFails, Owned;
    if d.store.cache.Some? && Owned(c, d.store.cache.value, LoginState(email, url)) {
      OneOwner(c, d.store.cache.value, d.svc.login.value, LoginState(email, url));
    }
  }

  // --- Restart ---

  /** Restarting while somebody is logged in gives the state that locking would
      leave, but for the sync stamp and the two timers, exactly when the login file
      can be read; restarting while logged out stays logged out. The failure count
      survives, exactly when the backoff file can be read or there was no failure. */
  lemma RestartRefinesLock(cfg: Config, s: Sys, readable: Reads)
    requires Inv(cfg, s)
    ensures var t := Next(cfg, s, Restart(readable)).daemon.svc;
            var kept := t.lastAttempt;
            && (t.attempts == s.daemon.svc.attempts <==> readable.backoff || s.daemon.svc.attempts == 0)
            && (!s.daemon.svc.status.LoggedOut? ==>
                  (t == LockEffect(s.daemon.svc).(lastSync := None, lastActivity := s.now, lastAttempt := kept,
                                                  attempts := t.attempts)
                   <==> readable.login)
                  && (t.status.LoggedOut? <==> !readable.login))
            && (s.daemon.svc.status.LoggedOut? ==>
                  t == s.daemon.svc.(grants := map[], lastSync := None, lastActivity := s.now, lastAttempt := kept,
                                     attempts := t.attempts))
            && Next(cfg, s, Restart(readable)).daemon.store == s.daemon.store
  {
    hide Owned, RestoredInstant, EpochSeconds;
  }

  /** The last attempt is forgotten exactly when the platform cannot represent
      the instant it falls on; otherwise it moves by less than a second. */
  lemma RestartKeepsLastAttempt(cfg: Config, s: Sys, readable: Reads)
    requires Inv(cfg, s) && s.daemon.svc.lastAttempt.Some?
    ensures var l := s.daemon.svc.lastAttempt.value;
            var moved := s.now - (EpochSeconds(s.now, cfg.offset) - EpochSeconds(l, cfg.offset)) * SECOND;
            var t := Next(cfg, s, Restart(readable)).daemon.svc.lastAttempt;
            && (t.None? <==> moved < cfg.earliest || !readable.backoff)
            && (t.Some? ==> t.value == moved && moved <= s.now
                            && (l + cfg.offset >= 0 ==> -SECOND < moved - l < SECOND))
  {
    hide Owned;
    var l := s.daemon.svc.lastAttempt.value;
    EpochGrows(l, s.now, cfg.offset);
    if l + cfg.offset >= 0 {
      FloorShift(s.now + cfg.offset, l + cfg.offset);
    }
  }

  lemma FloorShift(x: int, y: int)
    requires 0 <= y <= x
    ensures -SECOND < (x - (x / SECOND - y / SECOND) * SECOND) - y < SECOND
  {
    assert x == x / SECOND * SECOND + x % SECOND;
    assert y == y / SECOND * SECOND + y % SECOND;
  }

  lemma LastAttemptIsPast(cfg: Config, s: Sys)
    requires Inv(cfg, s) && s.daemon.svc.lastAttempt.Some?
    ensures s.daemon.svc.lastAttempt.value <= s.now
  {
    hide Owned;
  }

  lemma CloseFloors(a: nat, b: nat)
    requires -SECOND < a - b < SECOND
    ensures -1 <= a / SECOND - b / SECOND <= 1
  {
  }

  /** So the remaining backoff, asked at any later time, differs from what the
      old process would have answered by at most one second. */
  lemma RestartKeepsBackoff(cfg: Config, s: Sys, readable: Reads, later: Instant)
    requires Inv(cfg, s) && s.daemon.svc.lastAttempt.Some? && s.now <= later
    requires s.daemon.svc.lastAttempt.value + cfg.offset >= 0
    requires Next(cfg, s, Restart(readable)).daemon.svc.lastAttempt.Some?
    ensures var before := BackoffRemaining(s.daemon.svc, later);
            var after := BackoffRemaining(Next(cfg, s, Restart(readable)).daemon.svc, later);
            -1 <= after - before <= 1
  {
    hide Owned, Next, Delay;
    RestartRefinesLock(cfg, s, readable);
    RestartKeepsLastAttempt(cfg, s, readable);
    var l := s.daemon.svc.lastAttempt.value;
    var m := Next(cfg, s, Restart(readable)).daemon.svc.lastAttempt.value;
    CloseFloors(Elapsed(later, m), Elapsed(later, l));
  }
}
