/** Whose cache the cache file is when file operations may fail: exactly which
    steps leave one that is not the logged-in account's. */
module Ownership {
  import opened Base
  import opened Envelope
  import opened VaultCaches
  import opened Service
  import opened Machine
  import opened CacheAgreement
  import opened Durable
  import opened Interleavings
  import opened Witnesses
  import Residency

  // --- What an unlock does to the file ---

  /** The envelope an unlock writes, if it gets that far: it goes to the server,
      which accepts the password, and the record can be serialised. */
  function WrittenBytes(c: Crypto, d: Daemon, password: Password, io: UnlockInputs): Option<Bytes>
  {
    if !d.svc.status.Locked? || d.svc.login.None? || !WentOnline(c, d, password, io) || !io.reply.Granted? then None
    else
      var l, r := d.svc.login.value, io.reply;
      match c.derive(password, r.kdf, l.email)
      case None => None
      case Some(hash) =>
        match InitCrypto(c, password, r.kdf, l.email, r.userKey, r.privateKey, r.userId)
        case Err(_) => None
        case Ok(keys) =>
          var b := Bootstrap(r.kdf, r.userKey, r.privateKey, r.userId, l.email, l.serverUrl, hash, keys);
          match Serialise(Seal(c, RecordOf(c, b), CekForSealing(d.store, io).0, io.nonce))
          case Err(_) => None
          case Ok(bytes) => Some(bytes)
  }

  lemma WrittenBytesOwned(c: Crypto, d: Daemon, password: Password, io: UnlockInputs)
    requires Sound(d.svc) && WrittenBytes(c, d, password, io).Some?
    ensures Owned(c, WrittenBytes(c, d, password, io).value, d.svc.login.value)
  {
    hide WentOnline, InitCrypto;
    var l, r := d.svc.login.value, io.reply;
    var b := Bootstrap(r.kdf, r.userKey, r.privateKey, r.userId, l.email, l.serverUrl,
                       c.derive(password, r.kdf, l.email).value,
                       InitCrypto(c, password, r.kdf, l.email, r.userKey, r.privateKey, r.userId).value);
    assert SealedAs(c, WrittenBytes(c, d, password, io).value, RecordOf(c, b), CekForSealing(d.store, io).0, io.nonce);
  }

  lemma OnlineFile(c: Crypto, d: Daemon, password: Password, io: UnlockInputs)
    requires Sound(d.svc) && d.svc.status.Locked? && WentOnline(c, d, password, io)
    ensures var w := WrittenBytes(c, d, password, io);
            var left := if w.None? then d.store.cache else if io.diskOk then w else io.torn;
            UnlockOnline(c, d, password, io).after.store.cache == left
  {
    hide WentOnline, InitCrypto, Seal;
    var l, r := d.svc.login.value, io.reply;
    if r.Granted? {
      KdfRoundTrip(r.kdf);
    }
  }

  /** The cache file after an unlock: the written envelope, whatever a failed write
      left, or untouched. */
  lemma UnlockFile(c: Crypto, d: Daemon, password: Password, io: UnlockInputs)
    requires Sound(d.svc)
    ensures var w := WrittenBytes(c, d, password, io);
            var left := if w.None? then d.store.cache else if io.diskOk then w else io.torn;
            Unlock(c, d, password, io).after.store.cache == left
  {
    if d.svc.status.Locked? && WentOnline(c, d, password, io) {
      hide UnlockFromCache, UnlockOnline, WrittenBytes;
      var start := OnlineStart(c, d, password, io);
      OnlineFile(c, start, password, io);
      SameWritten(c, d, start, password, io);
    } else {
      hide UnlockOnline;
    }
  }

  lemma SameWritten(c: Crypto, d: Daemon, start: Daemon, password: Password, io: UnlockInputs)
    requires WentOnline(c, d, password, io) && WentOnline(c, start, password, io)
    requires d.svc.status.Locked? && start.svc.status.Locked?
    requires start.store == d.store && start.svc.login == d.svc.login
    ensures WrittenBytes(c, start, password, io) == WrittenBytes(c, d, password, io)
  {
    hide WentOnline;
  }

  // --- What it takes to read it ---

  /** An unlock that writes, on a machine whose credential store has a key or takes one:
      the file is encrypted, opens to a record exactly with the key that the store holds
      afterwards, and names the hash of no ciphers. */
  lemma WrittenNeedsCredential(c: Crypto, d: Daemon, password: Password, io: UnlockInputs) returns (e: CacheEnvelope)
    requires Ideal(c) && WrongKeyFails(c) && Sound(d.svc)
    requires WrittenBytes(c, d, password, io).Some? && io.diskOk
    requires io.keystore.Ready? && (d.store.cek.Some? || io.storeCekOk)
    ensures var after := Unlock(c, d, password, io).after.store;
            && after.cache.Some? && Serialise(e) == Ok(after.cache.value) && e.flags % 2 == 1
            && after.cek == Some(if d.store.cek.Some? then d.store.cek.value else io.freshCek)
            && (forall offered :: Open(c, e, offered).Ok? <==> offered == after.cek)
            && ReadVaultHash(after.cache.value) == Ok(c.vaultHash([]))
  {
    hide WentOnline, Open, Ideal, WrongKeyFails;
    UnlockFile(c, d, password, io);
    CredentialKept(c, d, password, io);
    var v;
    v, e := SealedBy(c, d, password, io);
    forall offered ensures Open(c, e, offered).Ok? <==> offered == CekForSealing(d.store, io).0 {
      OpenSealedIff(c, v, CekForSealing(d.store, io).0, io.nonce, offered);
    }
    HashInFile(e);
  }

  lemma HashInFile(e: CacheEnvelope)
    requires Serialise(e).Ok?
    ensures ReadVaultHash(Serialise(e).value) == Ok(e.vaultHash)
  {
    HeaderFields(e);
    var bytes := Serialise(e).value;
    assert bytes[0..4] == Header(e)[0..4] && bytes[9..41] == Header(e)[9..41];
  }

  lemma SealedBy(c: Crypto, d: Daemon, password: Password, io: UnlockInputs) returns (v: VaultCache, e: CacheEnvelope)
    requires WrittenBytes(c, d, password, io).Some?
    ensures e == Seal(c, v, CekForSealing(d.store, io).0, io.nonce) && v.ciphers == []
    ensures Serialise(e) == Ok(WrittenBytes(c, d, password, io).value)
  {
    hide WentOnline, InitCrypto;
    var l, r := d.svc.login.value, io.reply;
    var b := Bootstrap(r.kdf, r.userKey, r.privateKey, r.userId, l.email, l.serverUrl,
                       c.derive(password, r.kdf, l.email).value,
                       InitCrypto(c, password, r.kdf, l.email, r.userKey, r.privateKey, r.userId).value);
    v := RecordOf(c, b);
    e := Seal(c, v, CekForSealing(d.store, io).0, io.nonce);
  }

  lemma CredentialKept(c: Crypto, d: Daemon, password: Password, io: UnlockInputs)
    requires Sound(d.svc) && WrittenBytes(c, d, password, io).Some?
    ensures Unlock(c, d, password, io).after.store.cek == CekForSealing(d.store, io).1
  {
    hide UnlockFromCache, UnlockOnline, CekForSealing, WrittenBytes;
    WritersGoOnline(c, d, password, io);
    var start := OnlineStart(c, d, password, io);
    OnlineAgain(c, d, start, password, io);
    SameWritten(c, d, start, password, io);
    OnlineCredential(c, start, password, io);
  }

  lemma OnlineAgain(c: Crypto, d: Daemon, start: Daemon, password: Password, io: UnlockInputs)
    requires WentOnline(c, d, password, io) && start.store == d.store && d.svc.sdk.Some? && start.svc.sdk.Some?
    ensures WentOnline(c, start, password, io)
  {
    hide CachedKeys;
  }

  lemma WritersGoOnline(c: Crypto, d: Daemon, password: Password, io: UnlockInputs)
    requires WrittenBytes(c, d, password, io).Some?
    ensures d.svc.status.Locked? && WentOnline(c, d, password, io)
  {
  }

  lemma OnlineCredential(c: Crypto, d: Daemon, password: Password, io: UnlockInputs)
    requires Sound(d.svc) && WrittenBytes(c, d, password, io).Some?
    ensures UnlockOnline(c, d, password, io).after.store.cek == CekForSealing(d.store, io).1
  {
    hide WentOnline, InitCrypto, Seal, CekForSealing;
    KdfRoundTrip(io.reply.kdf);
  }

  // --- The steps that orphan the file ---

  /** A failed write leaves bytes that are no record of the account. */
  ghost predicate TearsForeign(c: Crypto, d: Daemon, password: Password, io: UnlockInputs)
  {
    && WrittenBytes(c, d, password, io).Some? && !io.diskOk
    && io.torn.Some? && !Owned(c, io.torn.value, d.svc.login.value)
  }

  ghost predicate Orphans(cfg: Config, s: Sys, a: Action)
  {
    match a
    case Run(tid, env) =>
      tid in s.threads
      && var pc := s.threads[tid].pc;
         || (pc.LogoutNow? && s.daemon.store.cache.Some? && !env.files.cache)
         || (AtUnlock(pc) && TearsForeign(cfg.crypto, s.daemon, pc.password, env.unlock.(now := s.now)))
    case Restart(readable) =>
      s.daemon.store.cache.Some? && Seen(s.daemon.store, readable).login != (
        if s.daemon.svc.login.Some? then File.Holds(s.daemon.svc.login.value) else Missing)
    case _ => false
  }

  /** What every other section does to file and account: nothing, or delete. */
  predicate KeepsFile(d: Daemon, e: Daemon)
  {
    e.svc.login == d.svc.login && (e.store.cache == d.store.cache || e.store.cache.None?)
  }

  lemma GateKeepsFile(cfg: Config, now: Instant, tid: Tid, th: Thread, d: Daemon, draws: nat)
    requires th.pc.GateTouch? || th.pc.GateState? || th.pc.GateResolve? || th.pc.GateCheck?
    ensures KeepsFile(d, ExecGate(cfg, now, tid, th, d, draws).daemon)
  {
  }

  lemma ApprovalKeepsFile(cfg: Config, now: Instant, tid: Tid, th: Thread, d: Daemon, draws: nat, env: Env)
    requires IsApproval(th.pc)
    ensures KeepsFile(d, ExecApproval(cfg, now, tid, th, d, draws, env).daemon)
  {
  }

  lemma UnlockersKeepFile(cfg: Config, now: Instant, tid: Tid, th: Thread, d: Daemon, draws: nat, env: Env)
    requires (IsAgent(th.pc) || IsLogin(th.pc) || IsAuthorize(th.pc)) && !AtUnlock(th.pc) && !th.pc.LoginRun?
    ensures KeepsFile(d, Exec(cfg, now, tid, th, d, draws, env).daemon)
  {
    hide Unlock, BackoffRemaining, EpochSeconds;
  }

  lemma SyncKeepsFile(cfg: Config, now: Instant, th: Thread, d: Daemon, draws: nat, env: Env)
    requires IsSync(th.pc)
    ensures KeepsFile(d, ExecSync(cfg, now, th, d, draws, env).daemon)
  {
  }

  lemma OtherKeepsFile(now: Instant, tid: Tid, th: Thread, d: Daemon, draws: nat, env: Env)
    requires !th.pc.LogoutNow?
    ensures KeepsFile(d, ExecOther(now, tid, th, d, draws, env).daemon)
  {
  }

  lemma SectionKeepsFile(cfg: Config, now: Instant, tid: Tid, th: Thread, d: Daemon, draws: nat, env: Env)
    requires !AtUnlock(th.pc) && !th.pc.LoginRun? && !th.pc.LogoutNow?
    ensures KeepsFile(d, Exec(cfg, now, tid, th, d, draws, env).daemon)
  {
    hide ExecGate, ExecApproval, ExecAgent, ExecLogin, ExecAuthorize, ExecSync, ExecOther, KeepsFile;
    if IsAgent(th.pc) || IsLogin(th.pc) || IsAuthorize(th.pc) {
      UnlockersKeepFile(cfg, now, tid, th, d, draws, env);
    } else if IsApproval(th.pc) {
      ApprovalKeepsFile(cfg, now, tid, th, d, draws, env);
    } else if IsSync(th.pc) {
      SyncKeepsFile(cfg, now, th, d, draws, env);
    } else if th.pc.GateTouch? || th.pc.GateState? || th.pc.GateResolve? || th.pc.GateCheck? {
      GateKeepsFile(cfg, now, tid, th, d, draws);
    } else {
      OtherKeepsFile(now, tid, th, d, draws, env);
    }
  }

  lemma KeptIsOwned(c: Crypto, d: Daemon, e: Daemon)
    requires CacheOwned(c, d) && KeepsFile(d, e)
    ensures CacheOwned(c, e)
  {
    hide Owned;
  }

  lemma LoginSectionOwned(cfg: Config, now: Instant, tid: Tid, th: Thread, d: Daemon, draws: nat, env: Env)
    requires th.pc.LoginRun? && Sound(d.svc) && CacheOwned(cfg.crypto, d)
    ensures CacheOwned(cfg.crypto, Exec(cfg, now, tid, th, d, draws, env).daemon)
  {
    hide Owned, Unlock, EpochSeconds, Saved, Removed;
  }

  lemma LogoutSectionOwned(cfg: Config, now: Instant, tid: Tid, th: Thread, d: Daemon, draws: nat, env: Env)
    requires th.pc.LogoutNow?
    ensures CacheOwned(cfg.crypto, Exec(cfg, now, tid, th, d, draws, env).daemon)
       <==> !(d.store.cache.Some? && !env.files.cache)
  {
    hide Owned;
  }

  lemma UnlockSectionOwned(cfg: Config, now: Instant, tid: Tid, th: Thread, d: Daemon, draws: nat, env: Env)
    requires AtUnlock(th.pc) && Sound(d.svc) && CacheOwned(cfg.crypto, d)
    ensures CacheOwned(cfg.crypto, Exec(cfg, now, tid, th, d, draws, env).daemon)
       <==> !TearsForeign(cfg.crypto, d, th.pc.password, env.unlock.(now := now))
  {
    hide Exec, Unlock, WrittenBytes, Owned;
    var p, io := th.pc.password, env.unlock.(now := now);
    UnlockSectionEffect(cfg, now, tid, th, d, draws, env);
    UnlockSound(cfg.crypto, d, p, io);
    UnlockFile(cfg.crypto, d, p, io);
    if WrittenBytes(cfg.crypto, d, p, io).Some? {
      WrittenBytesOwned(cfg.crypto, d, p, io);
      WritersAreLoggedIn(cfg.crypto, d, p, io);
    }
  }

  lemma WritersAreLoggedIn(c: Crypto, d: Daemon, password: Password, io: UnlockInputs)
    requires WrittenBytes(c, d, password, io).Some?
    ensures d.svc.login.Some?
  {
  }

  lemma RestartOwned(cfg: Config, s: Sys, readable: Reads)
    requires CacheOwned(cfg.crypto, s.daemon)
    ensures var t := Next(cfg, s, Restart(readable)).daemon;
            && (!Orphans(cfg, s, Restart(readable)) ==> CacheOwned(cfg.crypto, t))
            && (Ideal(cfg.crypto) && WrongKeyFails(cfg.crypto) && Orphans(cfg, s, Restart(readable)) ==>
                  !CacheOwned(cfg.crypto, t))
  {
    hide Owned, Ideal, WrongKeyFails, RestoredInstant, EpochSeconds;
    var t := Next(cfg, s, Restart(readable)).daemon;
    if Orphans(cfg, s, Restart(readable)) && Ideal(cfg.crypto) && WrongKeyFails(cfg.crypto) && t.svc.login.Some?
       && Owned(cfg.crypto, t.store.cache.value, t.svc.login.value) {
      OneOwner(cfg.crypto, t.store.cache.value, s.daemon.svc.login.value, t.svc.login.value);
    }
  }

  /** From any state whose cache file is the logged-in account's, a step leaves one
      that is not (one standing while nobody is logged in included) exactly when
      it is a logout that cannot delete an existing file, an unlock whose failed
      write leaves foreign bytes, or a restart, with a cache file present, that
      does not find the account in its login file: because writing or reading it
      failed, or because an older account's is still there. Only the last needs
      primitives that tell two accounts' files apart. */
  lemma ForeignCacheIff(cfg: Config, s: Sys, a: Action)
    requires Residency.Inv(s) && CacheOwned(cfg.crypto, s.daemon)
    ensures !Orphans(cfg, s, a) ==> CacheOwned(cfg.crypto, Next(cfg, s, a).daemon)
    ensures Ideal(cfg.crypto) && WrongKeyFails(cfg.crypto) ==>
              (Orphans(cfg, s, a) <==> !CacheOwned(cfg.crypto, Next(cfg, s, a).daemon))
  {
    hide Exec, Owned, TearsForeign, Sound, Ideal, WrongKeyFails;
    match a
    case Run(tid, env) =>
      if tid in s.threads {
        var th := s.threads[tid];
        if AtUnlock(th.pc) {
          UnlockSectionOwned(cfg, s.now, tid, th, s.daemon, s.draws, env);
        } else if th.pc.LoginRun? {
          LoginSectionOwned(cfg, s.now, tid, th, s.daemon, s.draws, env);
        } else if th.pc.LogoutNow? {
          LogoutSectionOwned(cfg, s.now, tid, th, s.daemon, s.draws, env);
        } else {
          SectionKeepsFile(cfg, s.now, tid, th, s.daemon, s.draws, env);
          KeptIsOwned(cfg.crypto, s.daemon, Exec(cfg, s.now, tid, th, s.daemon, s.draws, env).daemon);
        }
      }
    case Restart(readable) => RestartOwned(cfg, s, readable);
    case _ =>
  }

  ghost predicate NeverOrphans(cfg: Config, s: Sys, actions: seq<Action>)
    decreases |actions|
  {
    actions != [] ==> !Orphans(cfg, s, actions[0]) && NeverOrphans(cfg, Next(cfg, s, actions[0]), actions[1..])
  }

  /** So over any run, however its other file operations fail, the file stays the
      account's as long as no such step is taken. */
  lemma {:induction false} OwnedWithoutOrphaning(cfg: Config, s: Sys, actions: seq<Action>)
    requires Residency.Inv(s) && CacheOwned(cfg.crypto, s.daemon) && NeverOrphans(cfg, s, actions)
    ensures CacheOwned(cfg.crypto, Runs(cfg, s, actions).daemon)
    decreases |actions|
  {
    hide Next, CacheOwned, Orphans, Ideal, WrongKeyFails;
    if actions != [] {
      ForeignCacheIff(cfg, s, actions[0]);
      Residency.StepSound(cfg, s, actions[0]);
      OwnedWithoutOrphaning(cfg, Next(cfg, s, actions[0]), actions[1..]);
    }
  }

  /** Any store whose cache, if there is one, is the account's of its login file is
      a place to start from. */
  lemma BootOwned(cfg: Config, store: Store, prompt: PromptMethod, now: Instant)
    requires store.cache.Some? ==> store.login.Holds? && Owned(cfg.crypto, store.cache.value, store.login.value)
    ensures Residency.Inv(Boot(cfg, store, prompt, now))
    ensures CacheOwned(cfg.crypto, Boot(cfg, store, prompt, now).daemon)
  {
    hide Owned;
    Residency.KeyResidency(cfg, store, prompt, now, []);
  }

  // --- A crash inside a logout ---

  /** The store after the first n of a logout's deletions, in the program's order:
      login file, cache file, credential. */
  function Deleted(store: Store, n: nat): Store
  {
    if n == 0 then store
    else if n == 1 then store.(login := Missing)
    else if n == 2 then store.(login := Missing, cache := None)
    else store.(login := Missing, cache := None, cek := None)
  }

  /** The same with the first two the other way round. */
  function DeletedCacheFirst(store: Store, n: nat): Store
  {
    if n == 1 then store.(cache := None) else Deleted(store, n)
  }

  /** When the process dies between two deletions that both succeed, the next one
      finds a cache file and nobody logged in exactly if it died after the login
      file was gone and before the cache file was. In the other order it never
      would. */
  lemma CrashInLogoutIff(c: Crypto, d: Daemon, prompt: PromptMethod, now: Instant, nowEpoch: nat, earliest: Instant,
                         n: nat)
    requires d.svc.login.Some? && d.store.login == File.Holds(d.svc.login.value) && CacheOwned(c, d)
    ensures var store := Deleted(d.store, n);
            CacheOwned(c, Daemon(Start(store, prompt, now, nowEpoch, earliest), store))
            <==> !(n == 1 && d.store.cache.Some?)
    ensures var store := DeletedCacheFirst(d.store, n);
            CacheOwned(c, Daemon(Start(store, prompt, now, nowEpoch, earliest), store))
  {
    hide Owned;
  }

  // --- Each of them happens ---

  const CachelessStore := Store(File.Holds(LoginState("a", "b")), Missing, None, None)
  const EmptyStore := Store(Missing, Missing, None, None)

  /** A run, with primitives that meet every law, after which the cache file is not
      the logged-in account's. */
  ghost predicate EndsForeign(store: Store, actions: seq<Action>)
  {
    !CacheOwned(TellingCrypto(), Runs(PlainConfig(), Boot(PlainConfig(), store, Auto, 0), actions).daemon)
  }

  /** Unlock, then log out while the cache file cannot be deleted. */
  lemma FailedDeleteHappens() returns (actions: seq<Action>)
    ensures EndsForeign(CachelessStore, actions)
  {
    hide Next, Boot, Owned, UnlockActions;
    var cfg := PlainConfig();
    var boot := Boot(cfg, CachelessStore, Auto, 0);
    BootLocked(CachelessStore);
    var first := UnlockActions(0, NoHelp);
    UnlockActionsOpen(boot, 0, NoHelp);
    var s := Runs(cfg, boot, first);
    var stuck := NoHelp.(files := DiskIo(Succeeds, Succeeds, false));
    var rest := LogoutActions(1, stuck);
    LogoutActionsRun(s, 1, stuck);
    actions := first + rest;
    RunsConcat(cfg, boot, first, rest);
  }

  function LogoutActions(tid: Tid, env: Env): seq<Action> { [Begin(tid, None, LogoutNow), Run(tid, env)] }

  lemma LogoutRunEffect(s: Sys, tid: Tid, env: Env)
    requires tid in s.threads && s.threads[tid].pc.LogoutNow?
    ensures var t := Next(PlainConfig(), s, Run(tid, env));
            && t.daemon.svc.status.LoggedOut? && t.daemon.svc.login.None?
            && t.daemon.svc.attempts == s.daemon.svc.attempts
            && t.daemon.store == s.daemon.store.(login := Removed(s.daemon.store.login, env.files.login),
                                                 cache := if env.files.cache then None else s.daemon.store.cache,
                                                 cek := if env.keystoreOk then None else s.daemon.store.cek)
            && t.threads.Keys == s.threads.Keys && t.now == s.now
  {
  }

  lemma LogoutActionsRun(s: Sys, tid: Tid, env: Env)
    requires tid !in s.threads
    ensures var t := Runs(PlainConfig(), s, LogoutActions(tid, env));
            && t.daemon.svc.status.LoggedOut? && t.daemon.svc.login.None?
            && t.daemon.svc.attempts == s.daemon.svc.attempts
            && t.daemon.store == s.daemon.store.(login := Removed(s.daemon.store.login, env.files.login),
                                                 cache := if env.files.cache then None else s.daemon.store.cache,
                                                 cek := if env.keystoreOk then None else s.daemon.store.cek)
            && t.threads.Keys == s.threads.Keys + {tid} && t.now == s.now
  {
    hide Next, PlainConfig;
    var cfg := PlainConfig();
    BeginRuns(cfg, s, tid, None, LogoutNow);
    var s1 := Next(cfg, s, Begin(tid, None, LogoutNow));
    LogoutRunEffect(s1, tid, env);
    RunsSteps(cfg, s, LogoutActions(tid, env), [s, s1, Next(cfg, s1, Run(tid, env))]);
  }

  /** Unlock while writing the cache file fails and leaves it empty. */
  lemma TornWriteHappens() returns (actions: seq<Action>)
    ensures EndsForeign(CachelessStore, actions)
  {
    hide Next, Boot, Owned, UnlockActions;
    var cfg := PlainConfig();
    var boot := Boot(cfg, CachelessStore, Auto, 0);
    BootLocked(CachelessStore);
    var torn := NoHelp.(unlock := NoHelp.unlock.(diskOk := false, torn := Some([])));
    actions := UnlockActions(0, torn);
    UnlockActionsOpen(boot, 0, torn);
    NothingIsNoRecord(cfg.crypto, LoginState("a", "b"));
  }

  lemma NothingIsNoRecord(c: Crypto, l: LoginState)
    ensures !Owned(c, [], l)
  {
  }

  // --- A login that does not reach its file ---

  function LoginActions(tid: Tid, email: string, url: string, env: Env): seq<Action>
  {
    [Begin(tid, Some(100), LoginCheck(email, Some(url), Some("p"))), Run(tid, env), Run(tid, env)]
  }

  lemma LoginCheckRuns(s: Sys, tid: Tid, email: string, url: string, env: Env)
    requires tid in s.threads && s.threads[tid].pc == LoginCheck(email, Some(url), Some("p"))
    requires s.daemon.svc.attempts == 0
    ensures Next(PlainConfig(), s, Run(tid, env))
         == s.(threads := s.threads[tid := s.threads[tid].(pc := LoginRun(email, Some(url), s.now))])
  {
    hide Unlock;
  }

  lemma LoginRunRuns(s: Sys, tid: Tid, email: string, url: string, env: Env)
    requires tid in s.threads && s.threads[tid].pc == LoginRun(email, Some(url), s.now)
    requires s.daemon.svc.status.LoggedOut? && s.daemon.store.cache.None? && env.verdict.None?
    requires Short(email) && Short(url)
    ensures var t := Next(PlainConfig(), s, Run(tid, env));
            && Openable(t) && t.threads.Keys == s.threads.Keys && t.daemon.svc.login == Some(LoginState(email, url))
            && t.daemon.store.login == Saved(s.daemon.store.login, LoginState(email, url), env.files.login)
  {
    hide Unlock, PlainConfig, ExecGate, ExecApproval, ExecAgent, ExecAuthorize, ExecSync, ExecOther;
  }

  lemma LoginActionsRun(s: Sys, tid: Tid, email: string, url: string, env: Env)
    requires tid !in s.threads && s.daemon.svc.status.LoggedOut? && s.daemon.svc.attempts == 0
    requires s.daemon.store.cache.None? && env.verdict.None? && Short(email) && Short(url)
    ensures var t := Runs(PlainConfig(), s, LoginActions(tid, email, url, env));
            && Openable(t) && t.threads.Keys == s.threads.Keys + {tid}
            && t.daemon.svc.login == Some(LoginState(email, url))
            && t.daemon.store.login == Saved(s.daemon.store.login, LoginState(email, url), env.files.login)
  {
    hide Next, PlainConfig, Openable;
    var cfg := PlainConfig();
    var acts := LoginActions(tid, email, url, env);
    BeginRuns(cfg, s, tid, Some(100), LoginCheck(email, Some(url), Some("p")));
    var s1 := Next(cfg, s, acts[0]);
    LoginCheckRuns(s1, tid, email, url, env);
    var s2 := Next(cfg, s1, acts[1]);
    LoginRunRuns(s2, tid, email, url, env);
    RunsSteps(cfg, s, acts, [s, s1, s2, Next(cfg, s2, acts[2])]);
  }

  lemma UnlockRunOwned(s: Sys, tid: Tid, env: Env)
    requires Residency.Inv(s) && tid in s.threads && s.threads[tid].pc.UnlockRun?
    requires s.daemon.store.cache.None? && Helpful(env.unlock) && env.unlock.diskOk
    ensures CacheOwned(TellingCrypto(), Next(PlainConfig(), s, Run(tid, env)).daemon)
  {
    hide Exec, Ideal, WrongKeyFails, TellingCrypto, Sound;
    assert !Orphans(PlainConfig(), s, Run(tid, env));
    ForeignCacheIff(PlainConfig(), s, Run(tid, env));
  }

  /** An unlock that writes leaves the file the account's. */
  lemma UnlockActionsOwned(s: Sys, tid: Tid, env: Env)
    requires Residency.Inv(s) && Openable(s) && tid !in s.threads && Helpful(env.unlock) && env.unlock.diskOk
    ensures CacheOwned(TellingCrypto(), Runs(PlainConfig(), s, UnlockActions(tid, env)).daemon)
  {
    hide Next, CacheOwned, PlainConfig, Sound;
    var cfg := PlainConfig();
    var acts := UnlockActions(tid, env);
    BeginRuns(cfg, s, tid, Some(100), UnlockCheck(Some("p")));
    var s1 := Next(cfg, s, acts[0]);
    UnlockCheckRuns(s1, tid, env);
    var s2 := Next(cfg, s1, acts[1]);
    assert s2.daemon == s.daemon;
    UnlockRunOwned(s2, tid, env);
    RunsSteps(cfg, s, acts, [s, s1, s2, Next(cfg, s2, acts[2])]);
  }

  /** Log in while the login file cannot be written, whether that leaves it unreadable
      or not there, unlock, and restart: nobody is logged in, and the cache file
      is there. No deletion has failed. */
  lemma UnreadableLoginHappens(op: FileOp) returns (actions: seq<Action>)
    requires !op.Succeeds?
    ensures EndsForeign(EmptyStore, actions)
  {
    hide Next, Owned, UnlockActions, LoginActions;
    var cfg := PlainConfig();
    var boot := Boot(cfg, EmptyStore, Auto, 0);
    var full := NoHelp.(files := DiskIo(op, Succeeds, true));
    var login, unlock := LoginActions(0, "a", "b", full), UnlockActions(1, NoHelp);
    LoginActionsRun(boot, 0, "a", "b", full);
    var s := Runs(cfg, boot, login);
    UnlockActionsOpen(s, 1, NoHelp);
    RunsConcat(cfg, boot, login, unlock);
    var t := Runs(cfg, boot, login + unlock);
    RestartForgetsLogin(t);
    actions := login + unlock + [Restart(Reads(true, true))];
    RunsSnoc(cfg, boot, login + unlock, Restart(Reads(true, true)));
  }

  lemma RestartForgetsLogin(s: Sys)
    requires !s.daemon.store.login.Holds? && s.daemon.store.cache.Some?
    ensures var t := Next(PlainConfig(), s, Restart(Reads(true, true))).daemon;
            t.svc.login.None? && t.store.cache.Some?
  {
  }

  lemma RestartTakesLogin(s: Sys, l: LoginState)
    requires s.daemon.store.login == File.Holds(l)
    ensures var t := Next(PlainConfig(), s, Restart(Reads(true, true))).daemon;
            t.svc.login == Some(l) && t.svc.status.Locked? && t.store == s.daemon.store
  {
  }

  /** With a login file that can be neither removed nor opened, log the first account
      out, log another one in, unlock, and restart: the daemon is locked as the
      first account over the second one's cache. No cache operation has failed,
      and the login file reads well. */
  lemma StaleLoginHappens() returns (actions: seq<Action>)
    ensures EndsForeign(CachelessStore, actions)
    ensures var t := Runs(PlainConfig(), Boot(PlainConfig(), CachelessStore, Auto, 0), actions).daemon;
            t.svc.status.Locked? && t.svc.login == Some(LoginState("a", "b"))
            && t.store.cache.Some? && Owned(TellingCrypto(), t.store.cache.value, LoginState("c", "d"))
  {
    hide Next, Boot, Owned, UnlockActions, LoginActions, LogoutActions, Ideal, WrongKeyFails, TellingCrypto;
    var cfg := PlainConfig();
    var boot := Boot(cfg, CachelessStore, Auto, 0);
    BootLocked(CachelessStore);
    Residency.KeyResidency(cfg, CachelessStore, Auto, 0, []);
    var stuck := NoHelp.(files := DiskIo(Untouched, Succeeds, true));
    var out := LogoutActions(0, stuck);
    LogoutActionsRun(boot, 0, stuck);
    var s := Runs(cfg, boot, out);
    Residency.RunsSound(cfg, boot, out);
    var login := LoginActions(1, "c", "d", stuck);
    LoginActionsRun(s, 1, "c", "d", stuck);
    var t := Runs(cfg, s, login);
    Residency.RunsSound(cfg, s, login);
    var unlock := UnlockActions(2, NoHelp);
    UnlockActionsOpen(t, 2, NoHelp);
    UnlockActionsOwned(t, 2, NoHelp);
    var u := Runs(cfg, t, unlock);
    RestartTakesLogin(u, LoginState("a", "b"));
    TellingIsIdeal();
    if Owned(cfg.crypto, u.daemon.store.cache.value, LoginState("a", "b")) {
      OneOwner(cfg.crypto, u.daemon.store.cache.value, LoginState("a", "b"), LoginState("c", "d"));
    }
    RunsConcat(cfg, boot, out, login);
    RunsConcat(cfg, boot, out + login, unlock);
    actions := out + login + unlock + [Restart(Reads(true, true))];
    RunsSnoc(cfg, boot, out + login + unlock, Restart(Reads(true, true)));
  }
}
