/** The service as interleaved steps. Every request is a thread whose program
    counter names its next critical section; one action runs one section of one
    thread. Prompts, server, disk and credential store are inputs of an action.
    (crates/grimoire-service/src: session.rs, approval.rs, ssh_agent.rs,
    sync_worker.rs) */
module Machine {
  import opened Base
  import opened VaultCaches
  import opened Service

  type Tid = nat

  /** What stays fixed: the foreign functions, the session-leader lookup, the
      largest process id, the wall clock's offset and the earliest instant. */
  datatype Config = Config(crypto: Crypto, leader: U32 -> Option<U32>, maxPid: nat, offset: int, earliest: Instant)

  /** The operations behind the approval gate, and the agent's two. */
  datatype Op =
    | VaultList | VaultGet | VaultTotp | ResolveRefs | SshListKeys | SshSign | SyncTrigger
    | AgentSign | AgentList

  datatype Reply = Answered | LockedError | DeniedError | NotLoggedInError | BackoffError | Failed | Killed

  datatype Pc =
    // dispatch: the gate
    | GateTouch(op: Op)
    | GateState(op: Op)
    | GateResolve(op: Op)
    | GateCheck(op: Op, key: U32)
    // attempt_approval and grant_approval
    | ApprovalEnter(op: Op)
    | ApprovalLock(op: Op)
    | ApprovalBiometric(op: Op)
    | ApprovalHasPin(op: Op)
    | ApprovalPinPrompt(op: Op)
    | ApprovalPinVerify(op: Op, pin: Pin)
    | ApprovalPasswordPrompt(op: Op)
    | ApprovalPasswordVerify(op: Op)
    | ApprovalResolve(op: Op)
    | ApprovalGrant(op: Op, key: U32)
    | ApprovalDenied(op: Op)
    // the operation itself
    | Read(op: Op)
    | StampSync(next: Reply)
    // SSH agent
    | AgentStart(op: Op)
    | AgentBackoff(op: Op)
    | AgentPrompt(op: Op, checkedAt: Instant)
    | AgentUnlock(op: Op, checkedAt: Instant, password: Password)
    | AgentRead
    // auth.login, auth.unlock, auth.authorize
    | LoginCheck(email: string, url: Option<string>, given: Option<Password>)
    | LoginPrompt(email: string, url: Option<string>, checkedAt: Instant)
    | LoginRun(email: string, url: Option<string>, checkedAt: Instant)
    | UnlockCheck(given: Option<Password>)
    | UnlockPrompt(checkedAt: Instant)
    | UnlockRun(checkedAt: Instant, password: Password)
    | AuthorizeCheck(password: Password)
    | AuthorizeBranch(password: Password, checkedAt: Instant)
    | AuthorizeUnlock(password: Password, checkedAt: Instant)
    | AuthorizeVerify(checkedAt: Instant)
    | AuthorizeReset
    | AuthorizeRecord(checkedAt: Instant)
    | AuthorizeGrant
    // auth.lock, auth.logout, auth.set_pin
    | LockNow
    | LogoutNow
    | SetPinNow(pin: Pin)
    // sync and auto-lock workers
    | SyncNow
    | BackgroundSync
    | RevokeCache
    | RevokeCek
    | RevokeLock
    | AutoLockRead
    | AutoLockWrite
    | Done(reply: Reply)

  datatype Thread = Thread(peer: Option<U32>, pc: Pc)

  datatype Event =
    | Touched(at: Instant)
    | Drew(tid: Tid, key: U32)
    | Checked(tid: Tid, key: U32, at: Instant)
    | Authenticated(tid: Tid)
    | GrantedTo(tid: Tid, key: U32, at: Instant)
    | Cleared
    | Released(tid: Tid, op: Op)
    | RecordedFailure(at: Instant, count: nat)
    | ResetFailures
    | AutoLocked(at: Instant)
    | CacheTouched
    | Restarted

  datatype Sys = Sys(
    daemon: Daemon,
    now: Instant,
    lastTick: Instant,
    draws: nat,
    threads: map<Tid, Thread>,
    log: seq<Event>)

  /** The outside world's contribution to one section. */
  datatype Env = Env(
    biometric: bool,
    pin: Option<Pin>,
    password: Option<Password>,
    verdict: Option<SdkError>,
    unlock: UnlockInputs,
    sync: SyncReply,
    keystoreOk: bool,
    files: DiskIo)

  datatype Action =
    | Wait(d: nat)
    | Begin(tid: Tid, peer: Option<U32>, pc: Pc)
    | Run(tid: Tid, env: Env)
    | AutoLockTick
    | Restart(readable: Reads)

  datatype Out = Out(daemon: Daemon, draws: nat, pc: Pc, events: seq<Event>)

  // --- Scope keys ---

  function ScopeOf(cfg: Config, pid: U32): U32
  {
    match cfg.leader(pid) case Some(l) => l case None => pid
  }

  /** `fetch_sub` on the down-counter: the key drawn after `draws` draws. */
  function DrawnKey(draws: nat): U32 { (U32_MAX - draws) % 0x1_0000_0000 }

  function ResolvedKey(cfg: Config, peer: Option<U32>, draws: nat): U32
  {
    match peer case Some(pid) => ScopeOf(cfg, pid) case None => DrawnKey(draws)
  }

  function DrawsAfter(peer: Option<U32>, draws: nat): nat { if peer.None? then draws + 1 else draws }

  function DrawEvents(cfg: Config, tid: Tid, peer: Option<U32>, draws: nat): seq<Event>
  {
    if peer.None? then [Drew(tid, DrawnKey(draws))] else []
  }

  // --- Sections ---

  function Skip(d: Daemon, draws: nat, pc: Pc): Out { Out(d, draws, pc, []) }

  function Lockdown(d: Daemon, draws: nat, pc: Pc): Out
  {
    var (r, s) := Lock(d.svc);
    Out(d.(svc := s), draws, pc, if r.Ok? then [Cleared] else [])
  }

  function ExecGate(cfg: Config, now: Instant, tid: Tid, th: Thread, d: Daemon, draws: nat): Out
    requires th.pc.GateTouch? || th.pc.GateState? || th.pc.GateResolve? || th.pc.GateCheck?
  {
    match th.pc
    case GateTouch(op) => Out(d.(svc := Touch(d.svc, now)), draws, GateState(op), [Touched(now)])
    case GateState(op) =>
      Skip(d, draws, if d.svc.status.Unlocked? then GateResolve(op) else Done(LockedError))
    case GateResolve(op) =>
      Out(d, DrawsAfter(th.peer, draws), GateCheck(op, ResolvedKey(cfg, th.peer, draws)),
          DrawEvents(cfg, tid, th.peer, draws))
    case GateCheck(op, key) =>
      if IsApproved(d.svc.grants, key, now)
      then Out(d, draws, Read(op), [Checked(tid, key, now)])
      else Skip(d, draws, ApprovalEnter(op))
  }

  predicate IsApproval(pc: Pc)
  {
    pc.ApprovalEnter? || pc.ApprovalLock? || pc.ApprovalBiometric? || pc.ApprovalHasPin? || pc.ApprovalPinPrompt?
    || pc.ApprovalPinVerify? || pc.ApprovalPasswordPrompt? || pc.ApprovalPasswordVerify? || pc.ApprovalResolve?
    || pc.ApprovalGrant? || pc.ApprovalDenied?
  }

  function ExecApproval(cfg: Config, now: Instant, tid: Tid, th: Thread, d: Daemon, draws: nat, env: Env): Out
    requires IsApproval(th.pc)
  {
    match th.pc
    case ApprovalEnter(op) =>
      Skip(d, draws, if PinAttemptsExceeded(d.svc) then ApprovalLock(op) else ApprovalBiometric(op))
    case ApprovalLock(op) => Lockdown(d, draws, ApprovalDenied(op))
    case ApprovalBiometric(op) =>
      if env.biometric && d.svc.prompt != Terminal && d.svc.prompt != NoPrompt
      then Out(d, draws, ApprovalResolve(op), [Authenticated(tid)])
      else Skip(d, draws, ApprovalHasPin(op))
    case ApprovalHasPin(op) =>
      Skip(d, draws, if PinSet(d.svc) then ApprovalPinPrompt(op) else ApprovalPasswordPrompt(op))
    case ApprovalPinPrompt(op) =>
      Skip(d, draws, if d.svc.prompt != NoPrompt && env.pin.Some?
                     then ApprovalPinVerify(op, env.pin.value) else ApprovalDenied(op))
    case ApprovalPinVerify(op, pin) =>
      var (ok, s) := VerifyPin(d.svc, pin);
      if ok then Out(d.(svc := s), draws, ApprovalResolve(op), [Authenticated(tid)])
      else if PinAttemptsExceeded(s) then Lockdown(d.(svc := s), draws, ApprovalDenied(op))
      else Skip(d.(svc := s), draws, ApprovalDenied(op))
    case ApprovalPasswordPrompt(op) =>
      Skip(d, draws, if d.svc.prompt != NoPrompt && env.password.Some?
                     then ApprovalPasswordVerify(op) else ApprovalDenied(op))
    case ApprovalPasswordVerify(op) =>
      var (r, s) := VerifyPassword(d.svc, env.verdict);
      if r.Ok? then Out(d.(svc := s), draws, ApprovalResolve(op), [Authenticated(tid)])
      else Skip(d.(svc := s), draws, ApprovalDenied(op))
    case ApprovalResolve(op) =>
      Out(d, DrawsAfter(th.peer, draws), ApprovalGrant(op, ResolvedKey(cfg, th.peer, draws)),
          DrawEvents(cfg, tid, th.peer, draws))
    case ApprovalGrant(op, key) =>
      Out(d.(svc := Grant(d.svc, key, now)), draws, Read(op), [GrantedTo(tid, key, now)])
    case ApprovalDenied(op) =>
      Skip(d, draws, Done(if d.svc.status.Unlocked? then DeniedError else LockedError))
  }

  /** The section that reads the SDK. Three handlers test the state first; the
      others only ask whether a client exists. Keys are what turn the read into
      plaintext. */
  function ExecRead(tid: Tid, op: Op, d: Daemon, draws: nat, env: Env): Out
  {
    if (op.VaultList? || op.VaultGet? || op.VaultTotp? || op.SyncTrigger?) && !d.svc.status.Unlocked? then
      Skip(d, draws, Done(LockedError))
    else if d.svc.sdk.None? then Skip(d, draws, Done(NotLoggedInError))
    else if op.SyncTrigger? then
      var (r, client) := Sync(d.svc.sdk.value, env.sync);
      Skip(d.(svc := d.svc.(sdk := Some(client))), draws, if r.Ok? then StampSync(Answered) else Done(Failed))
    else
      Out(d, draws, Done(Answered), if Keyed(d.svc) then [Released(tid, op)] else [])
  }

  predicate IsAgent(pc: Pc)
  {
    pc.AgentStart? || pc.AgentBackoff? || pc.AgentPrompt? || pc.AgentUnlock? || pc.AgentRead?
  }

  /** The grant an unlock performs before it drops the write lock. */
  function UnlockAndGrant(cfg: Config, now: Instant, tid: Tid, th: Thread, d: Daemon, draws: nat, files: DiskIo, pc: Pc,
                          first: seq<Event>): Out
  {
    var key := ResolvedKey(cfg, th.peer, draws);
    var reset := ResetAttempts(d, files);
    Out(reset.(svc := Grant(reset.svc, key, now)), DrawsAfter(th.peer, draws), pc,
        first + [Authenticated(tid), ResetFailures] + DrawEvents(cfg, tid, th.peer, draws) + [GrantedTo(tid, key, now)])
  }

  function CacheEvents(before: Daemon, after: Daemon): seq<Event>
  {
    if before.store.cache == after.store.cache && before.store.cek == after.store.cek then [] else [CacheTouched]
  }

  /** What an unlock notes: a change of the cache, and activity on success. */
  function UnlockEvents(before: Daemon, o: Outcome, now: Instant): seq<Event>
  {
    CacheEvents(before, o.after) + (if o.result.Ok? then [Touched(now)] else [])
  }

  predicate IsNote(e: Event) { e.CacheTouched? || e.Touched? }

  lemma UnlockEventsAreNotes(before: Daemon, o: Outcome, now: Instant)
    ensures forall e | e in UnlockEvents(before, o, now) :: IsNote(e)
  {
  }

  function Record(cfg: Config, now: Instant, d: Daemon, draws: nat, files: DiskIo, pc: Pc, first: seq<Event>): Out
  {
    Out(RecordFailure(d, now, EpochSeconds(now, cfg.offset), files), draws, pc,
        first + [RecordedFailure(now, d.svc.attempts + 1)])
  }

  function ExecAgent(cfg: Config, now: Instant, tid: Tid, th: Thread, d: Daemon, draws: nat, env: Env): Out
    requires IsAgent(th.pc)
  {
    match th.pc
    case AgentStart(op) =>
      Skip(d, draws, match d.svc.status
                     case Locked => AgentBackoff(op)
                     case Unlocked => if op.AgentList? then AgentRead else GateResolve(op)
                     case LoggedOut => Done(NotLoggedInError))
    case AgentBackoff(op) =>
      Skip(d, draws, if BackoffRemaining(d.svc, now) > 0 then Done(BackoffError) else AgentPrompt(op, now))
    case AgentPrompt(op, checkedAt) =>
      Skip(d, draws, if d.svc.prompt != NoPrompt && env.password.Some?
                     then AgentUnlock(op, checkedAt, env.password.value) else Done(Failed))
    case AgentUnlock(op, _, password) =>
      var o := Unlock(cfg.crypto, d, password, env.unlock.(now := now));
      if o.result.Ok?
      then UnlockAndGrant(cfg, now, tid, th, o.after, draws, env.files,
                          if op.AgentList? then AgentRead else GateResolve(op), UnlockEvents(d, o, now))
      else Record(cfg, now, o.after, draws, env.files, Done(LockedError), UnlockEvents(d, o, now))
    case AgentRead => Skip(d, draws, Done(Answered))
  }

  predicate IsLogin(pc: Pc)
  {
    pc.LoginCheck? || pc.LoginPrompt? || pc.LoginRun? || pc.UnlockCheck? || pc.UnlockPrompt? || pc.UnlockRun?
  }

  predicate IsAuthorize(pc: Pc)
  {
    pc.AuthorizeCheck? || pc.AuthorizeBranch? || pc.AuthorizeUnlock? || pc.AuthorizeVerify? || pc.AuthorizeReset?
    || pc.AuthorizeRecord? || pc.AuthorizeGrant?
  }

  function ExecLogin(cfg: Config, now: Instant, tid: Tid, th: Thread, d: Daemon, draws: nat, env: Env): Out
    requires IsLogin(th.pc)
  {
    match th.pc
    case LoginCheck(email, url, given) =>
      Skip(d, draws, if BackoffRemaining(d.svc, now) > 0 then Done(BackoffError)
                     else if given.Some? then LoginRun(email, url, now) else LoginPrompt(email, url, now))
    case LoginPrompt(email, url, checkedAt) =>
      Skip(d, draws, if d.svc.prompt != NoPrompt && env.password.Some?
                     then LoginRun(email, url, checkedAt) else Done(Failed))
    case LoginRun(email, url, _) =>
      var o := Login(d, email, url, env.verdict, now, env.files);
      match o.result {
        case Ok(_) => Out(ResetAttempts(o.after, env.files), draws, Done(Answered), [Touched(now), ResetFailures])
        case Err(AuthFailed) => Record(cfg, now, o.after, draws, env.files, Done(Failed), [])
        case Err(_) => Skip(o.after, draws, Done(Failed))
      }
    case UnlockCheck(given) =>
      Skip(d, draws, if BackoffRemaining(d.svc, now) > 0 then Done(BackoffError)
                     else if given.Some? then UnlockRun(now, given.value) else UnlockPrompt(now))
    case UnlockPrompt(checkedAt) =>
      Skip(d, draws, if d.svc.prompt != NoPrompt && env.password.Some?
                     then UnlockRun(checkedAt, env.password.value) else Done(Failed))
    case UnlockRun(_, password) =>
      var o := Unlock(cfg.crypto, d, password, env.unlock.(now := now));
      match o.result {
        case Ok(_) => UnlockAndGrant(cfg, now, tid, th, o.after, draws, env.files, Done(Answered),
                                     UnlockEvents(d, o, now))
        case Err(AuthFailed) => Record(cfg, now, o.after, draws, env.files, Done(Failed), UnlockEvents(d, o, now))
        case Err(_) => Out(o.after, draws, Done(Failed), UnlockEvents(d, o, now))
      }
  }

  function ExecAuthorize(cfg: Config, now: Instant, tid: Tid, th: Thread, d: Daemon, draws: nat, env: Env): Out
    requires IsAuthorize(th.pc)
  {
    match th.pc
    case AuthorizeCheck(password) =>
      Skip(d, draws, if d.svc.status.LoggedOut? then Done(NotLoggedInError)
                     else if BackoffRemaining(d.svc, now) > 0 then Done(BackoffError)
                     else AuthorizeBranch(password, now))
    case AuthorizeBranch(password, checkedAt) =>
      Skip(d, draws, if d.svc.status.Locked? then AuthorizeUnlock(password, checkedAt) else AuthorizeVerify(checkedAt))
    case AuthorizeUnlock(password, _) =>
      var o := Unlock(cfg.crypto, d, password, env.unlock.(now := now));
      match o.result {
        case Ok(_) => Out(ResetAttempts(o.after, env.files), draws, AuthorizeGrant,
                          UnlockEvents(d, o, now) + [Authenticated(tid), ResetFailures])
        case Err(AuthFailed) => Record(cfg, now, o.after, draws, env.files, Done(Failed), UnlockEvents(d, o, now))
        case Err(_) => Out(o.after, draws, Done(Failed), UnlockEvents(d, o, now))
      }
    case AuthorizeVerify(checkedAt) =>
      var (r, s) := VerifyPassword(d.svc, env.verdict);
      match r {
        case Ok(_) => Out(d.(svc := s), draws, AuthorizeReset, [Authenticated(tid)])
        case Err(AuthFailed) => Skip(d.(svc := s), draws, AuthorizeRecord(checkedAt))
        case Err(_) => Skip(d.(svc := s), draws, Done(Failed))
      }
    case AuthorizeReset => Out(ResetAttempts(d, env.files), draws, AuthorizeGrant, [ResetFailures])
    case AuthorizeRecord(_) => Record(cfg, now, d, draws, env.files, Done(Failed), [])
    case AuthorizeGrant =>
      var key := ResolvedKey(cfg, th.peer, draws);
      Out(d.(svc := Grant(d.svc, key, now)), DrawsAfter(th.peer, draws), Done(Answered),
          DrawEvents(cfg, tid, th.peer, draws) + [GrantedTo(tid, key, now)])
  }

  predicate IsSync(pc: Pc)
  {
    pc.StampSync? || pc.SyncNow? || pc.BackgroundSync? || pc.RevokeCache? || pc.RevokeCek? || pc.RevokeLock?
  }

  /** A sync under the read lock: the client's ciphers may change, its keys not. */
  function SyncSection(d: Daemon, draws: nat, reply: SyncReply): Out
    requires d.svc.sdk.Some?
  {
    var (r, client) := Sync(d.svc.sdk.value, reply);
    Skip(d.(svc := d.svc.(sdk := Some(client))), draws,
         if r.Ok? then StampSync(Answered) else if r == Err(AuthRevoked) then RevokeCache else Done(Failed))
  }

  function ExecSync(cfg: Config, now: Instant, th: Thread, d: Daemon, draws: nat, env: Env): Out
    requires IsSync(th.pc)
  {
    match th.pc
    case StampSync(next) => Skip(d.(svc := d.svc.(lastSync := Some(now + cfg.offset))), draws, Done(next))
    case SyncNow =>
      if d.svc.sdk.None? || d.svc.serverUrl.None? then Skip(d, draws, Done(Failed))
      else SyncSection(d, draws, env.sync)
    case BackgroundSync =>
      if !d.svc.status.Unlocked? || d.svc.sdk.None? || d.svc.serverUrl.None? then Skip(d, draws, Done(Failed))
      else SyncSection(d, draws, env.sync)
    case RevokeCache =>
      var d' := d.(store := d.store.(cache := if env.files.cache then None else d.store.cache));
      Out(d', draws, RevokeCek, CacheEvents(d, d'))
    case RevokeCek =>
      var d' := d.(store := d.store.(cek := if env.keystoreOk then None else d.store.cek));
      Out(d', draws, RevokeLock, CacheEvents(d, d'))
    case RevokeLock => Lockdown(d, draws, Done(Answered))
  }

  /** The SDK read, auth.lock, auth.logout, auth.set_pin and the auto-lock worker. */
  function ExecOther(now: Instant, tid: Tid, th: Thread, d: Daemon, draws: nat, env: Env): Out
  {
    match th.pc
    case Read(op) => ExecRead(tid, op, d, draws, env)
    case LockNow => Lockdown(d, draws, Done(Answered))
    case LogoutNow =>
      var d' := Logout(d, env.keystoreOk, env.files);
      Out(d', draws, Done(Answered), [Cleared] + CacheEvents(d, d'))
    case SetPinNow(pin) =>
      var (r, s) := SetPin(d.svc, pin);
      Skip(d.(svc := s), draws, Done(if r.Ok? then Answered else Failed))
    case AutoLockRead => Skip(d, draws, if IdleTooLong(d.svc, now) then AutoLockWrite else Done(Answered))
    case AutoLockWrite => AutoLock(now, d, draws)
    case _ => Skip(d, draws, th.pc)
  }

  predicate IdleTooLong(s: Svc, now: Instant)
  {
    s.status.Unlocked? && Elapsed(now, s.lastActivity) >= AUTO_LOCK_SECONDS * SECOND
  }

  function AutoLock(now: Instant, d: Daemon, draws: nat): Out
  {
    if IdleTooLong(d.svc, now)
    then Out(d.(svc := LockEffect(d.svc)), draws, Done(Answered), [Cleared, AutoLocked(now)])
    else Skip(d, draws, Done(Answered))
  }

  function Exec(cfg: Config, now: Instant, tid: Tid, th: Thread, d: Daemon, draws: nat, env: Env): Out
  {
    if th.pc.GateTouch? || th.pc.GateState? || th.pc.GateResolve? || th.pc.GateCheck? then
      ExecGate(cfg, now, tid, th, d, draws)
    else if IsApproval(th.pc) then ExecApproval(cfg, now, tid, th, d, draws, env)
    else if IsAgent(th.pc) then ExecAgent(cfg, now, tid, th, d, draws, env)
    else if IsLogin(th.pc) then ExecLogin(cfg, now, tid, th, d, draws, env)
    else if IsAuthorize(th.pc) then ExecAuthorize(cfg, now, tid, th, d, draws, env)
    else if IsSync(th.pc) then ExecSync(cfg, now, th, d, draws, env)
    else ExecOther(now, tid, th, d, draws, env)
  }

  /** Where a request or a worker's round may begin. */
  predicate IsEntry(pc: Pc)
  {
    (pc.GateTouch? && !pc.op.AgentSign? && !pc.op.AgentList?)
    || (pc.AgentStart? && (pc.op.AgentSign? || pc.op.AgentList?))
    || pc.LoginCheck? || pc.UnlockCheck? || pc.AuthorizeCheck?
    || pc.LockNow? || pc.LogoutNow? || pc.SetPinNow? || pc.SyncNow? || pc.BackgroundSync? || pc.AutoLockRead?
  }

  /** The sections that try a password, for auth.unlock, auth.authorize and the
      SSH agent. */
  predicate AtUnlock(pc: Pc) { pc.UnlockRun? || pc.AuthorizeUnlock? || pc.AgentUnlock? }

  /** Whichever of the three it is, the section leaves what the unlock leaves, but
      for the failure count and the grants. */
  lemma UnlockSectionEffect(cfg: Config, now: Instant, tid: Tid, th: Thread, d: Daemon, draws: nat, env: Env)
    requires AtUnlock(th.pc)
    ensures var after := Unlock(cfg.crypto, d, th.pc.password, env.unlock.(now := now)).after;
            var e := Exec(cfg, now, tid, th, d, draws, env).daemon;
            && e.svc == after.svc.(attempts := e.svc.attempts, lastAttempt := e.svc.lastAttempt, grants := e.svc.grants)
            && e.store == after.store.(backoff := e.store.backoff)
  {
    hide Unlock, UnlockEvents;
  }

  // --- Runs ---

  function Next(cfg: Config, s: Sys, a: Action): Sys
  {
    match a
    case Wait(d) => s.(now := s.now + d)
    case Begin(tid, peer, pc) =>
      if tid !in s.threads && IsEntry(pc) then s.(threads := s.threads[tid := Thread(peer, pc)]) else s
    case Run(tid, env) =>
      if tid !in s.threads then s
      else
        var th := s.threads[tid];
        var out := Exec(cfg, s.now, tid, th, s.daemon, s.draws, env);
        s.(daemon := out.daemon, draws := out.draws, threads := s.threads[tid := th.(pc := out.pc)],
           log := s.log + out.events)
    case AutoLockTick =>
      var out := AutoLock(s.now, s.daemon, s.draws);
      s.(daemon := out.daemon, lastTick := s.now, log := s.log + out.events)
    case Restart(readable) =>
      var seen := Seen(s.daemon.store, readable);
      var svc := Start(seen, s.daemon.svc.prompt, s.now, EpochSeconds(s.now, cfg.offset), cfg.earliest);
      Sys(Daemon(svc, s.daemon.store), s.now, s.now, 0,
          map tid | tid in s.threads :: s.threads[tid].(pc := Done(Killed)), s.log + [Restarted])
  }

  function Runs(cfg: Config, s: Sys, actions: seq<Action>): Sys
    decreases |actions|
  {
    if actions == [] then s else Runs(cfg, Next(cfg, s, actions[0]), actions[1..])
  }

  /** A process that has just started over any durable state. */
  function Boot(cfg: Config, store: Store, prompt: PromptMethod, now: Instant): Sys
  {
    Sys(Daemon(Start(store, prompt, now, EpochSeconds(now, cfg.offset), cfg.earliest), store), now, now, 0, map[], [])
  }

  /** Runs compose: the last action comes after all the others. */
  lemma {:induction false} RunsSnoc(cfg: Config, s: Sys, actions: seq<Action>, a: Action)
    ensures Runs(cfg, s, actions + [a]) == Next(cfg, Runs(cfg, s, actions), a)
    decreases |actions|
  {
    if actions == [] {
      assert actions + [a] == [a];
      assert Runs(cfg, Next(cfg, s, a), []) == Next(cfg, s, a);
    } else {
      assert (actions + [a])[1..] == actions[1..] + [a];
      RunsSnoc(cfg, Next(cfg, s, actions[0]), actions[1..], a);
    }
  }

  lemma {:induction false} RunsConcat(cfg: Config, s: Sys, a: seq<Action>, b: seq<Action>)
    ensures Runs(cfg, s, a + b) == Runs(cfg, Runs(cfg, s, a), b)
    decreases |a|
  {
    hide Next;
    if a == [] {
      assert a + b == b;
    } else {
      assert (a + b)[1..] == a[1..] + b;
      RunsConcat(cfg, Next(cfg, s, a[0]), a[1..], b);
    }
  }

  /** A step leaves the other threads alone and only appends to the log. */
  lemma StepFrame(cfg: Config, s: Sys, a: Action)
    ensures s.log <= Next(cfg, s, a).log && s.now <= Next(cfg, s, a).now
    ensures s.threads.Keys <= Next(cfg, s, a).threads.Keys
    ensures forall tid | tid in s.threads :: Next(cfg, s, a).threads[tid].peer == s.threads[tid].peer
  {
  }
}
