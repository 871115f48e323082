/** The cache-first unlock agrees with the online unlock it replaces, across
    locks, restarts and everything else that leaves the cache alone. */
module CacheAgreement {
  import opened Base
  import opened Envelope
  import opened VaultCaches
  import opened Service
  import opened Machine
  import Residency

  /** What an online unlock learned: the server's parameters and wrapped keys,
      the account's email, the password's hash and the keys it installed. */
  datatype Bootstrap = Bootstrap(kdf: Kdf, userKey: string, privateKey: string, userId: Option<UserId>,
                                 email: string, serverUrl: string, hash: Hash, keys: Keys)

  function RecordOf(c: Crypto, b: Bootstrap): VaultCache
  {
    Build(c, b.kdf, b.userKey, b.privateKey, if b.userId.Some? then Some(c.userIdText(b.userId.value)) else None,
          b.email, b.serverUrl, [], None, b.hash)
  }

  /** The file holds that record, sealed under a credential the store still has. */
  ghost predicate Holds(c: Crypto, store: Store, b: Bootstrap, cek: Option<Key>)
  {
    && store.cache.Some?
    && (exists nonce :: Parse(store.cache.value) == Ok(Seal(c, RecordOf(c, b), cek, nonce)))
    && (cek.Some? ==> store.cek == cek)
  }

  /** The password that was used really yields these keys. */
  predicate Derived(c: Crypto, b: Bootstrap, password: Password)
  {
    && c.derive(password, b.kdf, b.email) == Some(b.hash)
    && InitCrypto(c, password, b.kdf, b.email, b.userKey, b.privateKey, b.userId) == Ok(b.keys)
  }

  /** `unlock_from_cache` on whatever file is there. */
  function UnlockFromFile(c: Crypto, d: Daemon, password: Password, io: UnlockInputs): (Result<(), SdkError>, Svc)
  {
    match ReadCacheFile(d.store, io.sight)
    case Ok(Some(e)) => UnlockFromCache(c, d, password, e, io)
    case _ => (Err(NotFound), d.svc)
  }

  predicate WentOnline(c: Crypto, d: Daemon, password: Password, io: UnlockInputs)
  {
    var f := ReadCacheFile(d.store, io.sight);
    f.Ok? && (f.value.None? || UnlockFromCache(c, d, password, f.value.value, io).0.Err?)
  }

  function BootstrapOf(c: Crypto, l: LoginState, password: Password, reply: OnlineReply, keys: Keys): Bootstrap
    requires reply.Granted? && c.derive(password, reply.kdf, l.email).Some?
  {
    Bootstrap(reply.kdf, reply.userKey, reply.privateKey, reply.userId, l.email, l.serverUrl,
              c.derive(password, reply.kdf, l.email).value, keys)
  }

  // --- An online unlock writes its own record ---

  /** The record of an online unlock is small enough for the reader's limit. */
  predicate BodyFits(c: Crypto, d: Daemon, password: Password, io: UnlockInputs)
  {
    d.svc.login.Some? && io.reply.Granted?
    && var l, r := d.svc.login.value, io.reply;
       var h := c.derive(password, r.kdf, l.email);
       h.Some?
       && |Seal(c, RecordOf(c, Bootstrap(r.kdf, r.userKey, r.privateKey, r.userId, l.email, l.serverUrl, h.value,
                                         Keys("", "", None))),
                CekForSealing(d.store, io).0, io.nonce).body| <= MAX_BODY_SIZE
  }

  lemma OnlineUnlockWrites(c: Crypto, d: Daemon, password: Password, io: UnlockInputs)
    returns (b: Bootstrap, cek: Option<Key>)
    requires Ideal(c) && Sound(d.svc) && d.svc.status.Locked?
    requires UnlockOnline(c, d, password, io).result.Ok? && io.diskOk && BodyFits(c, d, password, io)
    ensures var o := UnlockOnline(c, d, password, io);
            && Holds(c, o.after.store, b, cek) && Derived(c, b, password)
            && b.email == d.svc.login.value.email && b.serverUrl == d.svc.login.value.serverUrl && b.kdf == io.reply.kdf
            && Keyed(o.after.svc) && o.after.svc.sdk.value.keys == Some(b.keys)
            && cek == CekForSealing(d.store, io).0
  {
    var o := UnlockOnline(c, d, password, io);
    var r := io.reply;
    b := BootstrapOf(c, d.svc.login.value, password, r, o.after.svc.sdk.value.keys.value);
    cek := CekForSealing(d.store, io).0;
    KdfRoundTrip(r.kdf);
    var e := Seal(c, RecordOf(c, b), cek, io.nonce);
    RoundTripIffBodyFits(e);
    assert Parse(o.after.store.cache.value) == Ok(e);
  }

  // --- Reading it back ---

  /** The keystore can still produce what the cache needs. */
  predicate Usable(cek: Option<Key>, keystore: Keystore)
  {
    !keystore.LoadFails? && (cek.Some? ==> keystore.Ready?)
  }

  /** No other hash the candidate could derive has the record's code. */
  predicate NoCollision(c: Crypto, b: Bootstrap, candidate: Password)
  {
    var h := c.derive(candidate, b.kdf, b.email);
    var canonical := Canonical(c, RecordOf(c, b));
    h.Some? && c.hmac(h.value, canonical) == c.hmac(b.hash, canonical) ==> h.value == b.hash
  }

  lemma CachedKeysAgree(c: Crypto, store: Store, b: Bootstrap, cek: Option<Key>, password: Password,
                        candidate: Password, keystore: Keystore)
    requires Ideal(c) && Holds(c, store, b, cek) && Derived(c, b, password)
    requires Usable(cek, keystore) && NoCollision(c, b, candidate)
    ensures var r := CachedKeys(c, store, candidate, Parse(store.cache.value).value, keystore);
            && (r.Ok? <==> StrongEnough(FromKdf(b.kdf)) && c.derive(candidate, b.kdf, b.email) == Some(b.hash))
            && (r.Ok? ==> r.value == (RecordOf(c, b), b.keys))
  {
    var v := RecordOf(c, b);
    var nonce :| Parse(store.cache.value) == Ok(Seal(c, v, cek, nonce));
    var e := Seal(c, v, cek, nonce);
    OpenSealed(c, v, cek, nonce, LoadedCek(store, keystore));
    KdfRoundTrip(b.kdf);
    var h := c.derive(candidate, b.kdf, b.email);
    if h.Some? {
      BuiltVerifies(c, b.kdf, b.userKey, b.privateKey, v.userId, b.email, b.serverUrl, [], None, b.hash, h.value);
    }
    if b.userId.Some? {
      assert c.userIdParse(c.userIdText(b.userId.value)) == Some(b.userId.value);
    }
    if h == Some(b.hash) {
      assert c.unwrap(candidate, b.kdf, b.email, b.userKey, b.privateKey)
          == c.unwrap(password, b.kdf, b.email, b.userKey, b.privateKey);
    }
  }

  /** What makes a candidate password open the cache: parameters at or above the
      floor, a cipher store that accepts the record's ciphers, the same hash. */
  predicate Matches(c: Crypto, b: Bootstrap, candidate: Password, io: UnlockInputs)
  {
    StrongEnough(FromKdf(b.kdf)) && io.populateOk && c.derive(candidate, b.kdf, b.email) == Some(b.hash)
  }

  /** A later unlock opens from this cache for exactly the matching passwords, with
      the same user key, private key and user id, whatever the server would say;
      any other password is put to the server. */
  lemma CacheUnlockAgrees(c: Crypto, d: Daemon, b: Bootstrap, cek: Option<Key>, password: Password,
                          candidate: Password, io: UnlockInputs)
    requires Ideal(c) && Holds(c, d.store, b, cek) && Derived(c, b, password)
    requires io.sight.Readable? && Usable(cek, io.keystore) && NoCollision(c, b, candidate)
    requires Sound(d.svc) && d.svc.status.Locked?
    ensures var (r, s) := UnlockFromFile(c, d, candidate, io);
            && (r.Ok? <==> Matches(c, b, candidate, io))
            && (r.Ok? ==> s.status.Unlocked? && Keyed(s) && s.sdk.value.keys == Some(b.keys))
    ensures var o := Unlock(c, d, candidate, io);
            && (WentOnline(c, d, candidate, io) <==> !Matches(c, b, candidate, io))
            && (Matches(c, b, candidate, io) ==>
                  o.result.Ok? && Keyed(o.after.svc) && o.after.svc.sdk.value.keys == Some(b.keys)
                  && o.after.store == d.store)
  {
    hide CachedKeys, UnlockOnline, Ideal, NoCollision;
    CachedKeysAgree(c, d.store, b, cek, password, candidate, io.keystore);
  }

  // --- Across runs ---

  predicate Untouched(before: Daemon, o: Out)
  {
    CacheTouched !in o.events ==>
      o.daemon.store.cache == before.store.cache && o.daemon.store.cek == before.store.cek
  }

  lemma UnlockRunsUntouched(cfg: Config, now: Instant, tid: Tid, th: Thread, d: Daemon, draws: nat, env: Env)
    requires IsAgent(th.pc) || IsLogin(th.pc) || IsAuthorize(th.pc)
    ensures Untouched(d, Exec(cfg, now, tid, th, d, draws, env))
  {
    hide Unlock;
    if th.pc.AgentUnlock? || th.pc.UnlockRun? || th.pc.AuthorizeUnlock? {
      var o := Unlock(cfg.crypto, d, th.pc.password, env.unlock.(now := now));
      if CacheEvents(d, o.after) != [] {
        assert UnlockEvents(d, o, now)[0] == CacheTouched;
        assert Exec(cfg, now, tid, th, d, draws, env).events[0] == CacheTouched;
      }
    }
  }

  lemma OthersUntouched(cfg: Config, now: Instant, tid: Tid, th: Thread, d: Daemon, draws: nat, env: Env)
    requires !IsAgent(th.pc) && !IsLogin(th.pc) && !IsAuthorize(th.pc)
    ensures Untouched(d, Exec(cfg, now, tid, th, d, draws, env))
  {
    if th.pc.LogoutNow? {
      var d' := Logout(d, env.keystoreOk, env.files);
      if CacheEvents(d, d') != [] {
        assert ([Cleared] + CacheEvents(d, d'))[1] == CacheTouched;
      }
    }
  }

  lemma StepUntouched(cfg: Config, s: Sys, a: Action)
    requires CacheTouched !in Next(cfg, s, a).log[|s.log|..]
    ensures Next(cfg, s, a).daemon.store.cache == s.daemon.store.cache
    ensures Next(cfg, s, a).daemon.store.cek == s.daemon.store.cek
  {
    hide Exec;
    if a.Run? && a.tid in s.threads {
      var th := s.threads[a.tid];
      var o := Exec(cfg, s.now, a.tid, th, s.daemon, s.draws, a.env);
      assert Next(cfg, s, a).log[|s.log|..] == o.events;
      if IsAgent(th.pc) || IsLogin(th.pc) || IsAuthorize(th.pc) {
        UnlockRunsUntouched(cfg, s.now, a.tid, th, s.daemon, s.draws, a.env);
      } else {
        OthersUntouched(cfg, s.now, a.tid, th, s.daemon, s.draws, a.env);
      }
    }
  }

  /** What the log gained. */
  function Gained(s: Sys, t: Sys): seq<Event>
  {
    if |s.log| <= |t.log| then t.log[|s.log|..] else []
  }

  lemma {:induction false} RunsUntouched(cfg: Config, s: Sys, actions: seq<Action>)
    requires CacheTouched !in Gained(s, Runs(cfg, s, actions))
    ensures Runs(cfg, s, actions).daemon.store.cache == s.daemon.store.cache
    ensures Runs(cfg, s, actions).daemon.store.cek == s.daemon.store.cek
    decreases |actions|
  {
    hide Next;
    if actions != [] {
      var t := Next(cfg, s, actions[0]);
      var u := Runs(cfg, t, actions[1..]);
      StepFrame(cfg, s, actions[0]);
      LogOnlyGrows(cfg, t, actions[1..]);
      assert Gained(s, u) == t.log[|s.log|..] + Gained(t, u);
      RunsUntouched(cfg, t, actions[1..]);
      StepUntouched(cfg, s, actions[0]);
    }
  }

  lemma {:induction false} LogOnlyGrows(cfg: Config, s: Sys, actions: seq<Action>)
    ensures s.log <= Runs(cfg, s, actions).log
    decreases |actions|
  {
    hide Next;
    if actions != [] {
      StepFrame(cfg, s, actions[0]);
      LogOnlyGrows(cfg, Next(cfg, s, actions[0]), actions[1..]);
    }
  }

  /** Thread tid stands at any of the three sections that try a password, and is
      about to unlock against the server, successfully, with its cache written
      and readable. */
  predicate UnlocksOnline(cfg: Config, s: Sys, tid: Tid, env: Env)
  {
    && tid in s.threads && AtUnlock(s.threads[tid].pc) && s.daemon.svc.status.Locked?
    && var io, p := env.unlock.(now := s.now), s.threads[tid].pc.password;
       && WentOnline(cfg.crypto, s.daemon, p, io) && BodyFits(cfg.crypto, s.daemon, p, io)
       && Unlock(cfg.crypto, s.daemon, p, io).result.Ok? && io.diskOk
  }

  /** That unlock, anything at all that leaves cache file and credential alone,
      restarts included, and then a locked vault whose credential store answers
      as it did. */
  ghost predicate CachedSince(cfg: Config, s: Sys, tid: Tid, env: Env, later: seq<Action>, keystore: Keystore)
  {
    && UnlocksOnline(cfg, s, tid, env)
    && Usable(CekForSealing(s.daemon.store, env.unlock.(now := s.now)).0, keystore)
    && var t := Next(cfg, s, Run(tid, env));
       CacheTouched !in Gained(t, Runs(cfg, t, later)) && Runs(cfg, t, later).daemon.svc.status.Locked?
  }

  /** The unlock left this bootstrap: the server's parameters, the account's email,
      the hash of its password and the keys it installed. */
  ghost predicate BootstrapOfUnlock(cfg: Config, s: Sys, tid: Tid, env: Env, b: Bootstrap)
  {
    var t := Next(cfg, s, Run(tid, env));
    && tid in s.threads && AtUnlock(s.threads[tid].pc) && Derived(cfg.crypto, b, s.threads[tid].pc.password)
    && env.unlock.reply.Granted? && b.kdf == env.unlock.reply.kdf
    && s.daemon.svc.login.Some? && b.email == s.daemon.svc.login.value.email
    && Keyed(t.daemon.svc) && t.daemon.svc.sdk.value.keys == Some(b.keys)
  }

  lemma HeldAcrossRuns(cfg: Config, s: Sys, tid: Tid, env: Env, later: seq<Action>, keystore: Keystore)
      returns (b: Bootstrap, cek: Option<Key>)
    requires Ideal(cfg.crypto) && Residency.Inv(s) && CachedSince(cfg, s, tid, env, later, keystore)
    ensures BootstrapOfUnlock(cfg, s, tid, env, b) && Usable(cek, keystore)
    ensures var u := Runs(cfg, Next(cfg, s, Run(tid, env)), later);
            Residency.Inv(u) && Holds(cfg.crypto, u.daemon.store, b, cek)
  {
    hide Ideal, Sound, Holds, UnlockOnline, CekForSealing, Next, Derived, BodyFits;
    var t := Next(cfg, s, Run(tid, env));
    Residency.StepSound(cfg, s, Run(tid, env));
    Residency.RunsSound(cfg, t, later);
    b, cek := RequestWrites(cfg, s, tid, env);
    RunsUntouched(cfg, t, later);
    SameFileHolds(cfg.crypto, t.daemon.store, Runs(cfg, t, later).daemon.store, b, cek);
  }

  /** Over runs: a request of any of the three kinds unlocks against the server with
      password p and writes its cache; then anything may happen that leaves cache
      file and credential alone. Whenever the vault is then locked, an unlock with
      a candidate password succeeds from the cache exactly when it matches p's,
      with the very keys the online unlock installed and without touching the
      store; it asks the server exactly when it does not. */
  lemma CacheUnlockAgreesAcrossRuns(cfg: Config, store: Store, prompt: PromptMethod, now: Instant,
                                    before: seq<Action>, tid: Tid, env: Env, later: seq<Action>,
                                    candidate: Password, io: UnlockInputs)
      returns (b: Bootstrap)
    requires Ideal(cfg.crypto)
    requires CachedSince(cfg, Runs(cfg, Boot(cfg, store, prompt, now), before), tid, env, later, io.keystore)
    requires io.sight.Readable?
    ensures BootstrapOfUnlock(cfg, Runs(cfg, Boot(cfg, store, prompt, now), before), tid, env, b)
    ensures NoCollision(cfg.crypto, b, candidate) ==>
              var first := Runs(cfg, Boot(cfg, store, prompt, now), before);
              var c, d := cfg.crypto, Runs(cfg, Next(cfg, first, Run(tid, env)), later).daemon;
              var o := Unlock(c, d, candidate, io);
              && (UnlockFromFile(c, d, candidate, io).0.Ok? <==> Matches(c, b, candidate, io))
              && (WentOnline(c, d, candidate, io) <==> !Matches(c, b, candidate, io))
              && (Matches(c, b, candidate, io) ==>
                    o.result.Ok? && Keyed(o.after.svc) && o.after.svc.sdk.value.keys == Some(b.keys)
                    && o.after.store == d.store)
  {
    hide Ideal, NoCollision, Sound, Holds, UnlockFromFile, WentOnline, Unlock, Next, Derived, Matches;
    Residency.KeyResidency(cfg, store, prompt, now, before);
    var s := Runs(cfg, Boot(cfg, store, prompt, now), before);
    var cek;
    b, cek := HeldAcrossRuns(cfg, s, tid, env, later, io.keystore);
    if NoCollision(cfg.crypto, b, candidate) {
      var d := Runs(cfg, Next(cfg, s, Run(tid, env)), later).daemon;
      CacheUnlockAgrees(cfg.crypto, d, b, cek, s.threads[tid].pc.password, candidate, io);
    }
  }

  /** Where a section that tried a password goes on after a success. */
  predicate GoesOn(before: Pc, after: Pc)
    requires AtUnlock(before)
  {
    match before
    case UnlockRun(_, _) => after == Done(Answered)
    case AuthorizeUnlock(_, _) => after == AuthorizeGrant
    case AgentUnlock(op, _, _) => after == if op.AgentList? then AgentRead else GateResolve(op)
  }

  /** So the next step of any request that then stands at such a section, with
      whatever password: a matching one unlocks with those keys and goes on, with
      no server needed; any other leaves the vault locked and unkeyed when the
      server refuses. */
  lemma LaterRequestsAgreeAcrossRuns(cfg: Config, store: Store, prompt: PromptMethod, now: Instant,
                                     before: seq<Action>, tid: Tid, env: Env, later: seq<Action>,
                                     next: Tid, with: Env)
      returns (b: Bootstrap)
    requires Ideal(cfg.crypto)
    requires CachedSince(cfg, Runs(cfg, Boot(cfg, store, prompt, now), before), tid, env, later, with.unlock.keystore)
    requires with.unlock.sight.Readable?
    requires var u := Runs(cfg, Next(cfg, Runs(cfg, Boot(cfg, store, prompt, now), before), Run(tid, env)), later);
             next in u.threads && AtUnlock(u.threads[next].pc)
    ensures BootstrapOfUnlock(cfg, Runs(cfg, Boot(cfg, store, prompt, now), before), tid, env, b)
    ensures var u := Runs(cfg, Next(cfg, Runs(cfg, Boot(cfg, store, prompt, now), before), Run(tid, env)), later);
            NoCollision(cfg.crypto, b, u.threads[next].pc.password) ==> RequestAgrees(cfg, u, next, with, b)
  {
    hide Ideal, NoCollision, Sound, Holds, Next, Derived, RequestAgrees;
    Residency.KeyResidency(cfg, store, prompt, now, before);
    var s := Runs(cfg, Boot(cfg, store, prompt, now), before);
    var cek;
    b, cek := HeldAcrossRuns(cfg, s, tid, env, later, with.unlock.keystore);
    var u := Runs(cfg, Next(cfg, s, Run(tid, env)), later);
    if NoCollision(cfg.crypto, b, u.threads[next].pc.password) {
      HeldRequestAgrees(cfg, u, next, with, b, cek, s.threads[tid].pc.password);
    }
  }

  predicate RequestAgrees(cfg: Config, u: Sys, next: Tid, with: Env, b: Bootstrap)
    requires next in u.threads && AtUnlock(u.threads[next].pc)
  {
    var v := Next(cfg, u, Run(next, with));
    if Matches(cfg.crypto, b, u.threads[next].pc.password, with.unlock) then
      && v.daemon.svc.status.Unlocked? && Keyed(v.daemon.svc) && v.daemon.svc.sdk.value.keys == Some(b.keys)
      && v.daemon.store.cache == u.daemon.store.cache && v.daemon.store.cek == u.daemon.store.cek
      && GoesOn(u.threads[next].pc, v.threads[next].pc)
    else
      with.unlock.reply.Refused? ==>
        v.daemon.svc.status.Locked? && !Keyed(v.daemon.svc) && !GoesOn(u.threads[next].pc, v.threads[next].pc)
  }

  lemma HeldRequestAgrees(cfg: Config, u: Sys, next: Tid, with: Env, b: Bootstrap, cek: Option<Key>, password: Password)
    requires Ideal(cfg.crypto) && Residency.Inv(u) && u.daemon.svc.status.Locked?
    requires Holds(cfg.crypto, u.daemon.store, b, cek) && Derived(cfg.crypto, b, password)
    requires Usable(cek, with.unlock.keystore)
    requires with.unlock.sight.Readable?
    requires next in u.threads && AtUnlock(u.threads[next].pc)
    requires NoCollision(cfg.crypto, b, u.threads[next].pc.password)
    ensures RequestAgrees(cfg, u, next, with, b)
  {
    hide Ideal, NoCollision, Holds, Derived, Exec, Unlock, WentOnline, UnlockFromFile;
    var th := u.threads[next];
    var p, io := th.pc.password, with.unlock.(now := u.now);
    CacheUnlockAgrees(cfg.crypto, u.daemon, b, cek, password, p, io);
    UnlockSectionEffect(cfg, u.now, next, th, u.daemon, u.draws, with);
    UnlockSectionGoesOn(cfg, u.now, next, th, u.daemon, u.draws, with);
    UnlockSound(cfg.crypto, u.daemon, p, io);
    if !Matches(cfg.crypto, b, p, io) && io.reply.Refused? {
      RefusedOnline(cfg.crypto, u.daemon, p, io);
      FailedUnlockLeavesNoTrace(cfg.crypto, u.daemon, p, io);
    }
  }

  lemma RefusedOnline(c: Crypto, d: Daemon, password: Password, io: UnlockInputs)
    requires Sound(d.svc) && d.svc.status.Locked? && WentOnline(c, d, password, io) && io.reply.Refused?
    ensures Unlock(c, d, password, io).result.Err?
  {
    hide CachedKeys;
  }

  lemma UnlockSectionGoesOn(cfg: Config, now: Instant, tid: Tid, th: Thread, d: Daemon, draws: nat, env: Env)
    requires AtUnlock(th.pc)
    ensures GoesOn(th.pc, Exec(cfg, now, tid, th, d, draws, env).pc)
       <==> Unlock(cfg.crypto, d, th.pc.password, env.unlock.(now := now)).result.Ok?
  {
    hide Unlock, UnlockEvents;
  }

  lemma SameFileHolds(c: Crypto, s: Store, t: Store, b: Bootstrap, cek: Option<Key>)
    requires Holds(c, s, b, cek) && t.cache == s.cache && t.cek == s.cek
    ensures Holds(c, t, b, cek)
  {
  }

  /** The unlock inside the request, as the machine runs it. */
  lemma RequestWrites(cfg: Config, s: Sys, tid: Tid, env: Env) returns (b: Bootstrap, cek: Option<Key>)
    requires Ideal(cfg.crypto) && Residency.Inv(s) && UnlocksOnline(cfg, s, tid, env)
    ensures BootstrapOfUnlock(cfg, s, tid, env, b)
    ensures Holds(cfg.crypto, Next(cfg, s, Run(tid, env)).daemon.store, b, cek)
    ensures cek == CekForSealing(s.daemon.store, env.unlock.(now := s.now)).0
  {
    hide Ideal, Seal, Unlock, UnlockOnline, WentOnline, Holds, CekForSealing, BootstrapOf, Exec;
    var c := cfg.crypto;
    var io := env.unlock.(now := s.now);
    var p := s.threads[tid].pc.password;
    var d := OnlineStart(c, s.daemon, p, io);
    b, cek := OnlineUnlockWrites(c, d, p, io);
    var after := UnlockOnline(c, d, p, io).after;
    UnlockSectionEffect(cfg, s.now, tid, s.threads[tid], s.daemon, s.draws, env);
    CacheOfReset(c, after, Next(cfg, s, Run(tid, env)).daemon, b, cek);
  }

  lemma CacheOfReset(c: Crypto, after: Daemon, reset: Daemon, b: Bootstrap, cek: Option<Key>)
    requires Holds(c, after.store, b, cek)
    requires reset.store.cache == after.store.cache && reset.store.cek == after.store.cek
    ensures Holds(c, reset.store, b, cek)
  {
  }

  /** The daemon the online half of an unlock starts from. */
  lemma OnlineStart(c: Crypto, d: Daemon, password: Password, io: UnlockInputs) returns (start: Daemon)
    requires Sound(d.svc) && d.svc.status.Locked? && WentOnline(c, d, password, io)
    ensures Sound(start.svc) && start.svc.status.Locked? && start.store == d.store && start.svc.login == d.svc.login
    ensures BodyFits(c, d, password, io) ==> BodyFits(c, start, password, io)
    ensures Unlock(c, d, password, io) == UnlockOnline(c, start, password, io)
  {
    hide UnlockOnline;
    var f := ReadCacheFile(d.store, io.sight);
    if f.value.None? {
      start := d;
    } else {
      var s' := UnlockFromCache(c, d, password, f.value.value, io).1;
      start := d.(svc := s'.(sdk := Some(FreshClient(s'.serverUrl.value))));
    }
  }
}
