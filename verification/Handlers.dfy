/** The critical sections as code over the state objects: each one, run on them,
    does what the interleaved machine says (session.rs, approval.rs,
    ssh_agent.rs, sync_worker.rs). */
module SectionHandlers {
  import opened Base
  import opened VaultCaches
  import opened Service
  import opened Machine
  import Objects = ServiceObjects

  class Handlers {
    const state: Objects.ServiceState
    const cfg: Config
    /** `UNKNOWN_SCOPE_COUNTER`. */
    var nextScope: U32
    ghost var draws: nat

    ghost predicate Valid()
      reads this
    {
      nextScope == DrawnKey(draws) && cfg.crypto == state.crypto
    }

    constructor (state: Objects.ServiceState, cfg: Config)
      requires cfg.crypto == state.crypto
      ensures Valid() && draws == 0 && this.state == state && this.cfg == cfg
    {
      this.state := state;
      this.cfg := cfg;
      nextScope := U32_MAX;
      draws := 0;
    }

    /** The session leader's key, the process id, or the next key down. */
    method ResolveScopeKey(peer: Option<U32>) returns (key: U32)
      requires Valid()
      modifies this
      ensures Valid()
      ensures key == ResolvedKey(cfg, peer, old(draws)) && draws == DrawsAfter(peer, old(draws))
      ensures match peer
              case None => key == old(nextScope)
              case Some(pid) => match cfg.leader(pid) case Some(leader) => key == leader case None => key == pid
    {
      match peer
      case Some(pid) =>
        var leader := cfg.leader(pid);
        key := if leader.Some? then leader.value else pid;
      case None =>
        key := nextScope;
        nextScope := if nextScope == 0 then U32_MAX else nextScope - 1;
        draws := draws + 1;
    }

    /** dispatch, up to the approval flow. */
    method Gate(now: Instant, tid: Tid, th: Thread) returns (pc: Pc)
      requires Valid()
      requires th.pc.GateTouch? || th.pc.GateState? || th.pc.GateResolve? || th.pc.GateCheck?
      modifies this, state
      ensures Valid()
      ensures var o := ExecGate(cfg, now, tid, th, old(state.Snapshot()), old(draws));
              pc == o.pc && state.Snapshot() == o.daemon && draws == o.draws
    {
      match th.pc
      case GateTouch(op) =>
        state.Touch(now);
        pc := GateState(op);
      case GateState(op) =>
        pc := if state.status.Unlocked? then GateResolve(op) else Done(LockedError);
      case GateResolve(op) =>
        var key := ResolveScopeKey(th.peer);
        pc := GateCheck(op, key);
      case GateCheck(op, key) =>
        var approved := state.approvals.IsApproved(key, now);
        pc := if approved then Read(op) else ApprovalEnter(op);
    }

    predicate IsPinStage(pc: Pc)
    {
      pc.ApprovalEnter? || pc.ApprovalLock? || pc.ApprovalHasPin? || pc.ApprovalPinPrompt? || pc.ApprovalDenied?
    }

    /** attempt_approval as far as it concerns PINs. */
    method ApproveByPin(now: Instant, tid: Tid, th: Thread, env: Env) returns (pc: Pc)
      requires Valid() && IsPinStage(th.pc)
      modifies this, state, state.approvals
      ensures Valid()
      ensures var o := ExecApproval(cfg, now, tid, th, old(state.Snapshot()), old(draws), env);
              pc == o.pc && state.Snapshot() == o.daemon && draws == o.draws
    {
      hide Service.Sound, ResolvedKey, DrawEvents, Service.VerifyPassword;
      match th.pc
      case ApprovalEnter(op) =>
        var exceeded := state.PinAttemptsExceeded();
        pc := if exceeded then ApprovalLock(op) else ApprovalBiometric(op);
      case ApprovalLock(op) =>
        var ignored := state.Lock();
        pc := ApprovalDenied(op);
      case ApprovalHasPin(op) =>
        var hasPin := state.PinSet();
        pc := if hasPin then ApprovalPinPrompt(op) else ApprovalPasswordPrompt(op);
      case ApprovalPinPrompt(op) =>
        pc := if state.prompt != NoPrompt && env.pin.Some?
              then ApprovalPinVerify(op, env.pin.value) else ApprovalDenied(op);
      case ApprovalDenied(op) =>
        pc := Done(if state.status.Unlocked? then DeniedError else LockedError);
    }

    /** The section that verifies a PIN and may lock. */
    method PinSection(now: Instant, tid: Tid, th: Thread, env: Env) returns (pc: Pc)
      requires Valid() && th.pc.ApprovalPinVerify?
      modifies this, state, state.approvals
      ensures Valid()
      ensures var o := ExecApproval(cfg, now, tid, th, old(state.Snapshot()), old(draws), env);
              pc == o.pc && state.Snapshot() == o.daemon && draws == o.draws
    {
      hide Service.Sound, Service.VerifyPin, Service.Lock, Service.PinAttemptsExceeded, Keyed;
      var ok := state.CheckPin(th.pc.pin);
      return if ok then ApprovalResolve(th.pc.op) else ApprovalDenied(th.pc.op);
    }

    /** Its other two ways, and grant_approval, which all three end with. */
    method ApproveAndGrant(now: Instant, tid: Tid, th: Thread, env: Env) returns (pc: Pc)
      requires Valid() && IsApproval(th.pc) && !IsPinStage(th.pc) && !th.pc.ApprovalPinVerify?
      modifies this, state, state.approvals
      ensures Valid()
      ensures var o := ExecApproval(cfg, now, tid, th, old(state.Snapshot()), old(draws), env);
              pc == o.pc && state.Snapshot() == o.daemon && draws == o.draws
    {
      hide Service.Sound, DrawEvents, Service.VerifyPin, Service.Lock;
      match th.pc
      case ApprovalBiometric(op) =>
        pc := if env.biometric && state.prompt != Terminal && state.prompt != NoPrompt
              then ApprovalResolve(op) else ApprovalHasPin(op);
      case ApprovalPasswordPrompt(op) =>
        pc := if state.prompt != NoPrompt && env.password.Some? then ApprovalPasswordVerify(op) else ApprovalDenied(op);
      case ApprovalPasswordVerify(op) =>
        var verified := state.VerifyPassword(env.verdict);
        pc := if verified.Ok? then ApprovalResolve(op) else ApprovalDenied(op);
      case ApprovalResolve(op) =>
        var key := ResolveScopeKey(th.peer);
        pc := ApprovalGrant(op, key);
      case ApprovalGrant(op, key) =>
        state.approvals.Grant(key, APPROVAL_SECONDS, now);
        pc := Read(op);
    }

    /** What every successful unlock ends with, still under the write lock. */
    method ResetAndGrant(now: Instant, tid: Tid, th: Thread, files: DiskIo, ghost after: Pc, ghost first: seq<Event>)
      requires Valid()
      modifies this, state, state.approvals, state.disk
      ensures Valid()
      ensures var o := UnlockAndGrant(cfg, now, tid, th, old(state.Snapshot()), old(draws), files, after, first);
              state.Snapshot() == o.daemon && draws == o.draws && o.pc == after
    {
      state.ResetPasswordAttempts(files);
      var key := ResolveScopeKey(th.peer);
      state.approvals.Grant(key, APPROVAL_SECONDS, now);
    }

    /** The SSH agent, before a password is tried. */
    method Agent(now: Instant, tid: Tid, th: Thread, env: Env) returns (pc: Pc)
      requires Valid() && IsAgent(th.pc) && !th.pc.AgentUnlock?
      modifies this, state, state.approvals, state.disk
      ensures Valid()
      ensures var o := ExecAgent(cfg, now, tid, th, old(state.Snapshot()), old(draws), env);
              pc == o.pc && state.Snapshot() == o.daemon && draws == o.draws
    {
      hide Service.Unlock, Service.Sound;
      match th.pc
      case AgentStart(op) =>
        pc := match state.status
              case Locked => AgentBackoff(op)
              case Unlocked => if op.AgentList? then AgentRead else GateResolve(op)
              case LoggedOut => Done(NotLoggedInError);
      case AgentBackoff(op) =>
        var remaining := state.MasterPasswordBackoffRemaining(now);
        pc := if remaining > 0 then Done(BackoffError) else AgentPrompt(op, now);
      case AgentPrompt(op, checkedAt) =>
        pc := if state.prompt != NoPrompt && env.password.Some?
              then AgentUnlock(op, checkedAt, env.password.value) else Done(Failed);
      case AgentRead => pc := Done(Answered);
    }

    /** The SSH agent's attempt_unlock, with the write lock held: every failure
        counts against the backoff. */
    method AgentUnlockSection(now: Instant, tid: Tid, th: Thread, env: Env) returns (pc: Pc)
      requires Valid() && th.pc.AgentUnlock?
      modifies this, state, state.approvals, state.disk
      ensures Valid()
      ensures var o := ExecAgent(cfg, now, tid, th, old(state.Snapshot()), old(draws), env);
              pc == o.pc && state.Snapshot() == o.daemon && draws == o.draws
    {
      hide Service.Unlock, UnlockEvents, UnlockAndGrant, RecordFailure, EpochSeconds, Service.Sound;
      ghost var d := state.Snapshot();
      var r := state.Unlock(th.pc.password, env.unlock.(now := now));
      if r.Ok? {
        pc := if th.pc.op.AgentList? then AgentRead else GateResolve(th.pc.op);
        ghost var o := Service.Unlock(cfg.crypto, d, th.pc.password, env.unlock.(now := now));
        ResetAndGrant(now, tid, th, env.files, pc, UnlockEvents(d, o, now));
      } else {
        state.RecordPasswordFailure(now, EpochSeconds(now, cfg.offset), env.files);
        pc := Done(LockedError);
      }
    }

    /** handle_login. */
    method Login(now: Instant, tid: Tid, th: Thread, env: Env) returns (pc: Pc)
      requires Valid() && (th.pc.LoginCheck? || th.pc.LoginPrompt? || th.pc.LoginRun?)
      modifies this, state, state.approvals, state.disk
      ensures Valid()
      ensures var o := ExecLogin(cfg, now, tid, th, old(state.Snapshot()), old(draws), env);
              pc == o.pc && state.Snapshot() == o.daemon && draws == o.draws
    {
      hide Service.Unlock, UnlockEvents, UnlockAndGrant, Service.Sound;
      match th.pc
      case LoginCheck(email, url, given) =>
        var remaining := state.MasterPasswordBackoffRemaining(now);
        pc := if remaining > 0 then Done(BackoffError)
              else if given.Some? then LoginRun(email, url, now) else LoginPrompt(email, url, now);
      case LoginPrompt(email, url, checkedAt) =>
        pc := if state.prompt != NoPrompt && env.password.Some? then LoginRun(email, url, checkedAt) else Done(Failed);
      case LoginRun(email, url, _) =>
        var r := state.Login(email, url, env.verdict, now, env.files);
        if r.Ok? {
          state.ResetPasswordAttempts(env.files);
          pc := Done(Answered);
        } else {
          if r == Err(AuthFailed) {
            state.RecordPasswordFailure(now, EpochSeconds(now, cfg.offset), env.files);
          }
          pc := Done(Failed);
        }
    }

    /** handle_unlock, before the password is tried. */
    method Unlock(now: Instant, tid: Tid, th: Thread, env: Env) returns (pc: Pc)
      requires Valid() && (th.pc.UnlockCheck? || th.pc.UnlockPrompt?)
      modifies this, state, state.approvals, state.disk
      ensures Valid()
      ensures var o := ExecLogin(cfg, now, tid, th, old(state.Snapshot()), old(draws), env);
              pc == o.pc && state.Snapshot() == o.daemon && draws == o.draws
    {
      hide Service.Unlock, Service.Login, Service.Sound;
      match th.pc
      case UnlockCheck(given) =>
        var remaining := state.MasterPasswordBackoffRemaining(now);
        pc := if remaining > 0 then Done(BackoffError)
              else if given.Some? then UnlockRun(now, given.value) else UnlockPrompt(now);
      case UnlockPrompt(checkedAt) =>
        pc := if state.prompt != NoPrompt && env.password.Some?
              then UnlockRun(checkedAt, env.password.value) else Done(Failed);
    }

    /** handle_unlock, with the write lock held. */
    method UnlockSection(now: Instant, tid: Tid, th: Thread, env: Env) returns (pc: Pc)
      requires Valid() && th.pc.UnlockRun?
      modifies this, state, state.approvals, state.disk
      ensures Valid()
      ensures var o := ExecLogin(cfg, now, tid, th, old(state.Snapshot()), old(draws), env);
              pc == o.pc && state.Snapshot() == o.daemon && draws == o.draws
    {
      hide Service.Unlock, Service.Login, UnlockEvents, UnlockAndGrant, RecordFailure, EpochSeconds, Service.Sound;
      ghost var d := state.Snapshot();
      var r := state.Unlock(th.pc.password, env.unlock.(now := now));
      if r.Ok? {
        pc := Done(Answered);
        ghost var o := Service.Unlock(cfg.crypto, d, th.pc.password, env.unlock.(now := now));
        ResetAndGrant(now, tid, th, env.files, pc, UnlockEvents(d, o, now));
      } else {
        if r == Err(AuthFailed) {
          state.RecordPasswordFailure(now, EpochSeconds(now, cfg.offset), env.files);
        }
        pc := Done(Failed);
      }
    }

    /** handle_authorize when the vault is locked. */
    method AuthorizeUnlockSection(now: Instant, tid: Tid, th: Thread, env: Env) returns (pc: Pc)
      requires Valid() && th.pc.AuthorizeUnlock?
      modifies this, state, state.approvals, state.disk
      ensures Valid()
      ensures var o := ExecAuthorize(cfg, now, tid, th, old(state.Snapshot()), old(draws), env);
              pc == o.pc && state.Snapshot() == o.daemon && draws == o.draws
    {
      hide Service.Unlock, UnlockEvents, RecordFailure, ResetAttempts, EpochSeconds, Service.Sound;
      var r := state.Unlock(th.pc.password, env.unlock.(now := now));
      if r.Ok? {
        state.ResetPasswordAttempts(env.files);
        pc := AuthorizeGrant;
      } else {
        if r == Err(AuthFailed) {
          state.RecordPasswordFailure(now, EpochSeconds(now, cfg.offset), env.files);
        }
        pc := Done(Failed);
      }
    }

    /** handle_authorize but for that section. */
    method Authorize(now: Instant, tid: Tid, th: Thread, env: Env) returns (pc: Pc)
      requires Valid() && IsAuthorize(th.pc) && !th.pc.AuthorizeUnlock?
      modifies this, state, state.approvals, state.disk
      ensures Valid()
      ensures var o := ExecAuthorize(cfg, now, tid, th, old(state.Snapshot()), old(draws), env);
              pc == o.pc && state.Snapshot() == o.daemon && draws == o.draws
    {
      hide Service.Unlock, UnlockEvents, EpochSeconds, Service.Sound, BackoffRemaining, ResetAttempts, RecordFailure;
      hide Service.VerifyPassword;
      match th.pc
      case AuthorizeCheck(password) =>
        if state.status.LoggedOut? {
          return Done(NotLoggedInError);
        }
        var remaining := state.MasterPasswordBackoffRemaining(now);
        pc := if remaining > 0 then Done(BackoffError) else AuthorizeBranch(password, now);
      case AuthorizeBranch(password, checkedAt) =>
        pc := if state.status.Locked? then AuthorizeUnlock(password, checkedAt) else AuthorizeVerify(checkedAt);
      case AuthorizeVerify(checkedAt) =>
        var r := state.VerifyPassword(env.verdict);
        pc := if r.Ok? then AuthorizeReset
              else if r == Err(AuthFailed) then AuthorizeRecord(checkedAt) else Done(Failed);
      case AuthorizeReset =>
        state.ResetPasswordAttempts(env.files);
        pc := AuthorizeGrant;
      case AuthorizeRecord(_) =>
        state.RecordPasswordFailure(now, EpochSeconds(now, cfg.offset), env.files);
        pc := Done(Failed);
      case AuthorizeGrant =>
        var key := ResolveScopeKey(th.peer);
        state.approvals.Grant(key, APPROVAL_SECONDS, now);
        pc := Done(Answered);
    }

    /** The client's sync and where its verdict leads. */
    method RunSync(reply: SyncReply) returns (pc: Pc)
      requires state.sdk.Some?
      modifies state
      ensures var o := SyncSection(old(state.Snapshot()), 0, reply);
              pc == o.pc && state.Snapshot() == o.daemon
    {
      var (r, client) := Sync(state.sdk.value, reply);
      state.sdk := Some(client);
      pc := if r.Ok? then StampSync(Answered) else if r == Err(AuthRevoked) then RevokeCache else Done(Failed);
    }

    /** sync_now, background_sync_worker, and the stamp after either. */
    method SyncRound(now: Instant, th: Thread, env: Env) returns (pc: Pc)
      requires th.pc.StampSync? || th.pc.SyncNow? || th.pc.BackgroundSync?
      modifies state, state.approvals, state.disk
      ensures var o := ExecSync(cfg, now, th, old(state.Snapshot()), draws, env);
              pc == o.pc && state.Snapshot() == o.daemon && draws == o.draws
    {
      hide Service.Sync, Service.Lock;
      match th.pc
      case StampSync(next) =>
        state.lastSync := Some(now + cfg.offset);
        pc := Done(next);
      case SyncNow =>
        if state.sdk.None? || state.serverUrl.None? {
          return Done(Failed);
        }
        pc := RunSync(env.sync);
      case BackgroundSync =>
        if !state.status.Unlocked? || state.sdk.None? || state.serverUrl.None? {
          return Done(Failed);
        }
        pc := RunSync(env.sync);
    }

    /** handle_auth_revoked: cache file, credential, lock. */
    method HandleAuthRevoked(now: Instant, th: Thread, env: Env) returns (pc: Pc)
      requires th.pc.RevokeCache? || th.pc.RevokeCek? || th.pc.RevokeLock?
      modifies state, state.approvals, state.disk
      ensures var o := ExecSync(cfg, now, th, old(state.Snapshot()), draws, env);
              pc == o.pc && state.Snapshot() == o.daemon && draws == o.draws
    {
      hide Service.Sound, SyncSection, CacheEvents;
      match th.pc
      case RevokeCache =>
        state.disk.DeleteCacheFile(env.files.cache);
        pc := RevokeCek;
      case RevokeCek =>
        state.disk.DeleteCek(env.keystoreOk);
        pc := RevokeLock;
      case RevokeLock =>
        if state.status.Unlocked? {
          var ignored := state.Lock();
        }
        pc := Done(Answered);
    }

    /** Locking is idempotent. */
    method HandleLock(now: Instant, tid: Tid, th: Thread, env: Env) returns (pc: Pc)
      requires th.pc.LockNow?
      modifies state, state.approvals, state.disk
      ensures var o := ExecOther(now, tid, th, old(state.Snapshot()), draws, env);
              pc == o.pc && state.Snapshot() == o.daemon && draws == o.draws
    {
      hide Service.Sound, ExecRead, AutoLock, IdleTooLong, CacheEvents, Service.Logout, Service.SetPin, LockEffect;
      if state.status.Unlocked? {
        var ignored := state.Lock();
      }
      return Done(Answered);
    }

    method HandleLogout(now: Instant, tid: Tid, th: Thread, env: Env) returns (pc: Pc)
      requires th.pc.LogoutNow?
      modifies state, state.approvals, state.disk
      ensures var o := ExecOther(now, tid, th, old(state.Snapshot()), draws, env);
              pc == o.pc && state.Snapshot() == o.daemon && draws == o.draws
    {
      hide Service.Sound, ExecRead, AutoLock, IdleTooLong, CacheEvents, Service.Logout, Service.SetPin;
      state.Logout(env.keystoreOk, env.files);
      return Done(Answered);
    }

    method HandleSetPin(now: Instant, tid: Tid, th: Thread, env: Env) returns (pc: Pc)
      requires th.pc.SetPinNow?
      modifies state, state.approvals, state.disk
      ensures var o := ExecOther(now, tid, th, old(state.Snapshot()), draws, env);
              pc == o.pc && state.Snapshot() == o.daemon && draws == o.draws
    {
      hide Service.Sound, ExecRead, AutoLock, IdleTooLong, CacheEvents, Service.Logout;
      var r := state.SetPin(th.pc.pin);
      return Done(if r.Ok? then Answered else Failed);
    }

    method IsIdle(now: Instant) returns (idle: bool)
      ensures idle == IdleTooLong(state.Value(), now)
    {
      return state.status.Unlocked? && Elapsed(now, state.lastActivity) >= AUTO_LOCK_SECONDS * SECOND;
    }

    /** A round of auto_lock_worker: the check, and the check again under the
        write lock. */
    method AutoLockRound(now: Instant, tid: Tid, th: Thread, env: Env) returns (pc: Pc)
      requires th.pc.AutoLockRead? || th.pc.AutoLockWrite?
      modifies state, state.approvals, state.disk
      ensures var o := ExecOther(now, tid, th, old(state.Snapshot()), draws, env);
              pc == o.pc && state.Snapshot() == o.daemon && draws == o.draws
    {
      hide Service.Sound, ExecRead, Service.Logout, Service.SetPin;
      var idle := IsIdle(now);
      match th.pc
      case AutoLockRead =>
        pc := if idle then AutoLockWrite else Done(Answered);
      case AutoLockWrite =>
        if idle {
          var ignored := state.Lock();
        }
        pc := Done(Answered);
    }

    /** The section of a gated handler that reads the SDK, and whether what it
        answers holds decrypted data. */
    method ReadSdk(tid: Tid, op: Op, env: Env) returns (pc: Pc, released: bool)
      modifies state
      ensures var o := ExecRead(tid, op, old(state.Snapshot()), draws, env);
              && pc == o.pc && state.Snapshot() == o.daemon && draws == o.draws
              && o.events == if released then [Released(tid, op)] else []
      ensures released && Sound(state.Value()) ==> state.status.Unlocked?
    {
      released := false;
      if (op.VaultList? || op.VaultGet? || op.VaultTotp? || op.SyncTrigger?) && !state.status.Unlocked? {
        return Done(LockedError), false;
      }
      if state.sdk.None? {
        return Done(NotLoggedInError), false;
      }
      if op.SyncTrigger? {
        var (r, client) := Sync(state.sdk.value, env.sync);
        state.sdk := Some(client);
        pc := if r.Ok? then StampSync(Answered) else Done(Failed);
      } else {
        released := state.sdk.value.keys.Some?;
        pc := Done(Answered);
      }
    }

    /** The worker's round when it need not wait for the lock. */
    method AutoLockAtOnce(now: Instant)
      modifies state, state.approvals
      ensures state.Snapshot() == AutoLock(now, old(state.Snapshot()), draws).daemon
    {
      hide Service.Sound;
      var idle := IsIdle(now);
      if idle {
        var ignored := state.Lock();
      }
    }

    /** Any section of any request: what the machine's step does, and a release of
        decrypted data exactly when the machine logs one. */
    method RunSection(now: Instant, tid: Tid, th: Thread, env: Env) returns (pc: Pc, released: Option<Op>)
      requires Valid()
      modifies this, state, state.approvals, state.disk
      ensures Valid()
      ensures var o := Exec(cfg, now, tid, th, old(state.Snapshot()), old(draws), env);
              pc == o.pc && state.Snapshot() == o.daemon && draws == o.draws && Reports(o.events, tid, released)
    {
      hide ExecGate, ExecApproval, ExecAgent, ExecLogin, ExecAuthorize, ExecSync, ExecRead;
      ghost var d, n := state.Snapshot(), draws;
      OnlyReadsRelease(cfg, now, tid, th, d, n, env);
      released := None;
      if th.pc.GateTouch? || th.pc.GateState? || th.pc.GateResolve? || th.pc.GateCheck? {
        pc := Gate(now, tid, th);
      } else if IsApproval(th.pc) {
        pc := Approval(now, tid, th, env);
      } else if IsAgent(th.pc) {
        pc := AnyAgent(now, tid, th, env);
      } else if IsLogin(th.pc) {
        pc := AnyLogin(now, tid, th, env);
      } else if IsAuthorize(th.pc) {
        pc := AnyAuthorize(now, tid, th, env);
      } else if IsSync(th.pc) {
        pc := AnySync(now, th, env);
      } else {
        pc, released := AnyOther(now, tid, th, env);
      }
    }

    method Approval(now: Instant, tid: Tid, th: Thread, env: Env) returns (pc: Pc)
      requires Valid() && IsApproval(th.pc)
      modifies this, state, state.approvals
      ensures Valid()
      ensures var o := ExecApproval(cfg, now, tid, th, old(state.Snapshot()), old(draws), env);
              pc == o.pc && state.Snapshot() == o.daemon && draws == o.draws
    {
      hide ExecApproval;
      if IsPinStage(th.pc) {
        pc := ApproveByPin(now, tid, th, env);
      } else if th.pc.ApprovalPinVerify? {
        pc := PinSection(now, tid, th, env);
      } else {
        pc := ApproveAndGrant(now, tid, th, env);
      }
    }

    method AnyAgent(now: Instant, tid: Tid, th: Thread, env: Env) returns (pc: Pc)
      requires Valid() && IsAgent(th.pc)
      modifies this, state, state.approvals, state.disk
      ensures Valid()
      ensures var o := ExecAgent(cfg, now, tid, th, old(state.Snapshot()), old(draws), env);
              pc == o.pc && state.Snapshot() == o.daemon && draws == o.draws
    {
      hide ExecAgent;
      if th.pc.AgentUnlock? {
        pc := AgentUnlockSection(now, tid, th, env);
      } else {
        pc := Agent(now, tid, th, env);
      }
    }

    method AnyLogin(now: Instant, tid: Tid, th: Thread, env: Env) returns (pc: Pc)
      requires Valid() && IsLogin(th.pc)
      modifies this, state, state.approvals, state.disk
      ensures Valid()
      ensures var o := ExecLogin(cfg, now, tid, th, old(state.Snapshot()), old(draws), env);
              pc == o.pc && state.Snapshot() == o.daemon && draws == o.draws
    {
      hide ExecLogin;
      if th.pc.UnlockRun? {
        pc := UnlockSection(now, tid, th, env);
      } else if th.pc.UnlockCheck? || th.pc.UnlockPrompt? {
        pc := Unlock(now, tid, th, env);
      } else {
        pc := Login(now, tid, th, env);
      }
    }

    method AnyAuthorize(now: Instant, tid: Tid, th: Thread, env: Env) returns (pc: Pc)
      requires Valid() && IsAuthorize(th.pc)
      modifies this, state, state.approvals, state.disk
      ensures Valid()
      ensures var o := ExecAuthorize(cfg, now, tid, th, old(state.Snapshot()), old(draws), env);
              pc == o.pc && state.Snapshot() == o.daemon && draws == o.draws
    {
      hide ExecAuthorize;
      if th.pc.AuthorizeUnlock? {
        pc := AuthorizeUnlockSection(now, tid, th, env);
      } else {
        pc := Authorize(now, tid, th, env);
      }
    }

    method AnySync(now: Instant, th: Thread, env: Env) returns (pc: Pc)
      requires IsSync(th.pc)
      modifies state, state.approvals, state.disk
      ensures var o := ExecSync(cfg, now, th, old(state.Snapshot()), draws, env);
              pc == o.pc && state.Snapshot() == o.daemon && draws == o.draws
    {
      hide ExecSync;
      if th.pc.RevokeCache? || th.pc.RevokeCek? || th.pc.RevokeLock? {
        pc := HandleAuthRevoked(now, th, env);
      } else {
        pc := SyncRound(now, th, env);
      }
    }

    method AnyOther(now: Instant, tid: Tid, th: Thread, env: Env) returns (pc: Pc, released: Option<Op>)
      modifies state, state.approvals, state.disk
      ensures var o := ExecOther(now, tid, th, old(state.Snapshot()), draws, env);
              pc == o.pc && state.Snapshot() == o.daemon && draws == o.draws
              && (th.pc.Read? ==> Reports(o.events, tid, released)) && (!th.pc.Read? ==> released.None?)
    {
      hide ExecRead;
      released := None;
      match th.pc
      case Read(op) =>
        var gotData: bool;
        pc, gotData := ReadSdk(tid, op, env);
        released := if gotData then Some(op) else None;
      case LockNow => pc := HandleLock(now, tid, th, env);
      case LogoutNow => pc := HandleLogout(now, tid, th, env);
      case SetPinNow(_) => pc := HandleSetPin(now, tid, th, env);
      case AutoLockRead => pc := AutoLockRound(now, tid, th, env);
      case AutoLockWrite => pc := AutoLockRound(now, tid, th, env);
      case _ => pc := th.pc;
    }
  }

  /** What the section hands out is what its events say. */
  ghost predicate Reports(es: seq<Event>, tid: Tid, released: Option<Op>)
  {
    forall t, op :: Event.Released(t, op) in es <==> t == tid && released == Some(op)
  }

  lemma GateReleasesNothing(cfg: Config, now: Instant, tid: Tid, th: Thread, d: Daemon, draws: nat, env: Env)
    requires th.pc.GateTouch? || th.pc.GateState? || th.pc.GateResolve? || th.pc.GateCheck?
             || IsApproval(th.pc) || IsSync(th.pc)
    ensures forall e | e in Exec(cfg, now, tid, th, d, draws, env).events :: !e.Released?
  {
  }

  lemma UnlockersReleaseNothing(cfg: Config, now: Instant, tid: Tid, th: Thread, d: Daemon, draws: nat, env: Env)
    requires IsAgent(th.pc) || IsLogin(th.pc) || IsAuthorize(th.pc)
    ensures forall e | e in Exec(cfg, now, tid, th, d, draws, env).events :: !e.Released?
  {
    hide Unlock, UnlockEvents, BackoffRemaining, EpochSeconds;
    if AtUnlock(th.pc) {
      var o := Service.Unlock(cfg.crypto, d, th.pc.password, env.unlock.(now := now));
      UnlockEventsAreNotes(d, o, now);
    }
  }

  lemma OtherReleasesNothing(now: Instant, tid: Tid, th: Thread, d: Daemon, draws: nat, env: Env)
    requires !th.pc.Read?
    ensures forall e | e in ExecOther(now, tid, th, d, draws, env).events :: !e.Released?
  {
    hide ExecRead;
  }

  /** Only a read of the SDK releases anything. */
  lemma OnlyReadsRelease(cfg: Config, now: Instant, tid: Tid, th: Thread, d: Daemon, draws: nat, env: Env)
    ensures !th.pc.Read? ==> Reports(Exec(cfg, now, tid, th, d, draws, env).events, tid, None)
  {
    hide ExecGate, ExecApproval, ExecAgent, ExecLogin, ExecAuthorize, ExecSync, ExecOther;
    if IsAgent(th.pc) || IsLogin(th.pc) || IsAuthorize(th.pc) {
      UnlockersReleaseNothing(cfg, now, tid, th, d, draws, env);
    } else if th.pc.GateTouch? || th.pc.GateState? || th.pc.GateResolve? || th.pc.GateCheck?
              || IsApproval(th.pc) || IsSync(th.pc) {
      GateReleasesNothing(cfg, now, tid, th, d, draws, env);
    } else if !th.pc.Read? {
      OtherReleasesNothing(now, tid, th, d, draws, env);
    }
  }
}
