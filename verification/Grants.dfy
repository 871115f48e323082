/** The approval cache refines the event log: a key is approved exactly when the
    log shows a recent enough grant with no lock, logout or restart since. */
module Grants {
  import opened Base
  import opened VaultCaches
  import opened Service
  import opened Machine
  import Residency

  const LIFETIME: int := 300 * SECOND

  predicate Clears(e: Event) { e.Cleared? || e.Restarted? }

  // --- The specification: what the log says ---

  /** Some grant for the key lies within the last 300 seconds of `t`, and
      nothing after it cleared the cache. */
  ghost predicate LiveAt(log: seq<Event>, key: U32, t: Instant)
  {
    exists i | 0 <= i < |log| :: Witnesses(log, i, key, t)
  }

  ghost predicate Witnesses(log: seq<Event>, i: nat, key: U32, t: Instant)
    requires i < |log|
  {
    && log[i].GrantedTo? && log[i].key == key && t < log[i].at + LIFETIME
    && forall j | i < j < |log| :: !Clears(log[j])
  }

  // --- The fold that the cache computes ---

  function Apply(m: map<U32, Instant>, e: Event): map<U32, Instant>
  {
    match e
    case GrantedTo(_, key, at) => m[key := at + LIFETIME]
    case Cleared => map[]
    case Restarted => map[]
    case _ => m
  }

  function Fold(m: map<U32, Instant>, es: seq<Event>): map<U32, Instant>
    decreases |es|
  {
    if es == [] then m else Apply(Fold(m, es[..|es| - 1]), es[|es| - 1])
  }

  lemma {:induction false} FoldConcat(m: map<U32, Instant>, a: seq<Event>, b: seq<Event>)
    ensures Fold(m, a + b) == Fold(Fold(m, a), b)
    decreases |b|
  {
    if b == [] {
      assert a + b == a;
    } else {
      var n := |b| - 1;
      assert (a + b)[..|a + b| - 1] == a + b[..n];
      FoldConcat(m, a, b[..n]);
    }
  }

  lemma FoldOne(m: map<U32, Instant>, e: Event)
    ensures Fold(m, [e]) == Apply(m, e)
  {
    assert [e][..0] == [];
  }

  /** Grant times never exceed the clock and never go back. */
  predicate TimesOrdered(log: seq<Event>, now: Instant)
  {
    && (forall i | 0 <= i < |log| && log[i].GrantedTo? :: log[i].at <= now)
    && (forall i, j | 0 <= i < j < |log| && log[i].GrantedTo? && log[j].GrantedTo? :: log[i].at <= log[j].at)
  }

  /** The fold answers as the log specification does. */
  lemma {:induction false} FoldMeetsSpec(log: seq<Event>, now: Instant, key: U32, t: Instant)
    requires TimesOrdered(log, now)
    ensures IsApproved(Fold(map[], log), key, t) <==> LiveAt(log, key, t)
    decreases |log|
  {
    if log != [] {
      var n := |log| - 1;
      var init, e := log[..n], log[n];
      FoldMeetsSpec(init, now, key, t);
      if LiveAt(log, key, t) {
        var i :| 0 <= i < |log| && Witnesses(log, i, key, t);
        if i < n {
          assert Witnesses(init, i, key, t);
          assert !Clears(log[n]);
        }
      }
      if IsApproved(Fold(map[], log), key, t) {
        if e.GrantedTo? && e.key == key {
          assert Witnesses(log, n, key, t);
        } else {
          assert !Clears(e);
          var i :| 0 <= i < |init| && Witnesses(init, i, key, t);
          assert Witnesses(log, i, key, t);
        }
      }
    }
  }

  // --- Every section appends exactly the events its effect on the cache needs ---

  /** The events account for the change of the grants, and every grant they
      record is dated now. */
  predicate Accounts(before: Svc, o: Out, now: Instant)
  {
    && Fold(before.grants, o.events) == o.daemon.svc.grants
    && forall e | e in o.events && e.GrantedTo? :: e.at == now
  }

  lemma GrantAccounts(cfg: Config, tid: Tid, peer: Option<U32>, draws: nat, key: U32, now: Instant, first: seq<Event>,
                      m: map<U32, Instant>)
    requires forall e | e in first :: !e.GrantedTo? && !Clears(e)
    ensures Fold(m, first + DrawEvents(cfg, tid, peer, draws) + [GrantedTo(tid, key, now)])
         == m[key := now + LIFETIME]
  {
    var quiet := first + DrawEvents(cfg, tid, peer, draws);
    FoldQuiet(m, quiet);
    FoldConcat(m, quiet, [GrantedTo(tid, key, now)]);
    FoldOne(m, GrantedTo(tid, key, now));
  }

  lemma {:induction false} FoldQuiet(m: map<U32, Instant>, es: seq<Event>)
    requires forall e | e in es :: !e.GrantedTo? && !Clears(e)
    ensures Fold(m, es) == m
    decreases |es|
  {
    if es != [] {
      assert es[|es| - 1] in es;
      FoldQuiet(m, es[..|es| - 1]);
    }
  }

  lemma LockdownAccounts(d: Daemon, draws: nat, pc: Pc, now: Instant)
    ensures Accounts(d.svc, Lockdown(d, draws, pc), now)
  {
    FoldOne(d.svc.grants, Cleared);
  }

  lemma ExecGateAccounts(cfg: Config, now: Instant, tid: Tid, th: Thread, d: Daemon, draws: nat)
    requires th.pc.GateTouch? || th.pc.GateState? || th.pc.GateResolve? || th.pc.GateCheck?
    ensures Accounts(d.svc, ExecGate(cfg, now, tid, th, d, draws), now)
  {
    FoldQuiet(d.svc.grants, ExecGate(cfg, now, tid, th, d, draws).events);
  }

  lemma ExecApprovalAccounts(cfg: Config, now: Instant, tid: Tid, th: Thread, d: Daemon, draws: nat, env: Env)
    requires IsApproval(th.pc)
    ensures Accounts(d.svc, ExecApproval(cfg, now, tid, th, d, draws, env), now)
  {
    var o := ExecApproval(cfg, now, tid, th, d, draws, env);
    if th.pc.ApprovalLock? {
      LockdownAccounts(d, draws, o.pc, now);
    } else if th.pc.ApprovalPinVerify? {
      var (ok, s) := VerifyPin(d.svc, th.pc.pin);
      if !ok && PinAttemptsExceeded(s) {
        LockdownAccounts(d.(svc := s), draws, o.pc, now);
      } else {
        FoldQuiet(d.svc.grants, o.events);
      }
    } else if th.pc.ApprovalGrant? {
      FoldOne(d.svc.grants, GrantedTo(tid, th.pc.key, now));
    } else {
      FoldQuiet(d.svc.grants, o.events);
    }
  }

  lemma UnlockAndGrantAccounts(cfg: Config, now: Instant, tid: Tid, th: Thread, d: Daemon, draws: nat, files: DiskIo,
                               pc: Pc, first: seq<Event>)
    requires forall e | e in first :: IsNote(e)
    ensures Accounts(d.svc, UnlockAndGrant(cfg, now, tid, th, d, draws, files, pc, first), now)
  {
    GrantAccounts(cfg, tid, th.peer, draws, ResolvedKey(cfg, th.peer, draws), now,
                  first + [Authenticated(tid), ResetFailures], d.svc.grants);
  }

  lemma RecordAccounts(cfg: Config, now: Instant, d: Daemon, draws: nat, files: DiskIo, pc: Pc, first: seq<Event>)
    requires forall e | e in first :: IsNote(e)
    ensures Accounts(d.svc, Record(cfg, now, d, draws, files, pc, first), now)
  {
    hide Fold, RecordFailure;
    RecordKeepsGrants(d, now, EpochSeconds(now, cfg.offset), files);
    FoldQuiet(d.svc.grants, Record(cfg, now, d, draws, files, pc, first).events);
  }

  lemma RecordKeepsGrants(d: Daemon, now: Instant, epoch: nat, files: DiskIo)
    ensures RecordFailure(d, now, epoch, files).svc.grants == d.svc.grants
  {
  }

  lemma ExecAgentAccounts(cfg: Config, now: Instant, tid: Tid, th: Thread, d: Daemon, draws: nat, env: Env)
    requires IsAgent(th.pc) && Sound(d.svc)
    ensures Accounts(d.svc, ExecAgent(cfg, now, tid, th, d, draws, env), now)
  {
    hide Unlock, Fold, UnlockEvents, Record, UnlockAndGrant;
    var o := ExecAgent(cfg, now, tid, th, d, draws, env);
    if th.pc.AgentUnlock? {
      var u := Unlock(cfg.crypto, d, th.pc.password, env.unlock.(now := now));
      UnlockSound(cfg.crypto, d, th.pc.password, env.unlock.(now := now));
      var notes := UnlockEvents(d, u, now);
      UnlockEventsAreNotes(d, u, now);
      if u.result.Ok? {
        UnlockAndGrantAccounts(cfg, now, tid, th, u.after, draws, env.files,
                               if th.pc.op.AgentList? then AgentRead else GateResolve(th.pc.op), notes);
      } else {
        RecordAccounts(cfg, now, u.after, draws, env.files, Done(LockedError), notes);
      }
    } else {
      FoldQuiet(d.svc.grants, o.events);
    }
  }

  /** The section in which auth.unlock unlocks. */
  lemma UnlockRunAccounts(cfg: Config, now: Instant, tid: Tid, th: Thread, d: Daemon, draws: nat, env: Env)
    requires th.pc.UnlockRun? && Sound(d.svc)
    ensures Accounts(d.svc, ExecLogin(cfg, now, tid, th, d, draws, env), now)
  {
    hide Unlock, Fold, UnlockEvents, Record, UnlockAndGrant;
    var u := Unlock(cfg.crypto, d, th.pc.password, env.unlock.(now := now));
    UnlockSound(cfg.crypto, d, th.pc.password, env.unlock.(now := now));
    var notes := UnlockEvents(d, u, now);
    UnlockEventsAreNotes(d, u, now);
    if u.result.Ok? {
      UnlockAndGrantAccounts(cfg, now, tid, th, u.after, draws, env.files, Done(Answered), notes);
    } else if u.result == Err(AuthFailed) {
      RecordAccounts(cfg, now, u.after, draws, env.files, Done(Failed), notes);
    } else {
      FoldQuiet(d.svc.grants, notes);
    }
  }

  lemma LoginRestAccounts(cfg: Config, now: Instant, tid: Tid, th: Thread, d: Daemon, draws: nat, env: Env)
    requires IsLogin(th.pc) && !th.pc.UnlockRun?
    ensures Accounts(d.svc, ExecLogin(cfg, now, tid, th, d, draws, env), now)
  {
    hide Fold, Unlock, BackoffRemaining, EpochSeconds;
    FoldQuiet(d.svc.grants, ExecLogin(cfg, now, tid, th, d, draws, env).events);
  }

  lemma ExecLoginAccounts(cfg: Config, now: Instant, tid: Tid, th: Thread, d: Daemon, draws: nat, env: Env)
    requires IsLogin(th.pc) && Sound(d.svc)
    ensures Accounts(d.svc, ExecLogin(cfg, now, tid, th, d, draws, env), now)
  {
    hide ExecLogin, Accounts;
    if th.pc.UnlockRun? {
      UnlockRunAccounts(cfg, now, tid, th, d, draws, env);
    } else {
      LoginRestAccounts(cfg, now, tid, th, d, draws, env);
    }
  }

  lemma AuthorizeUnlockAccounts(cfg: Config, now: Instant, tid: Tid, th: Thread, d: Daemon, draws: nat, env: Env)
    requires th.pc.AuthorizeUnlock? && Sound(d.svc)
    ensures Accounts(d.svc, ExecAuthorize(cfg, now, tid, th, d, draws, env), now)
  {
    hide Unlock, Fold, UnlockEvents, Record;
    var u := Unlock(cfg.crypto, d, th.pc.password, env.unlock.(now := now));
    UnlockSound(cfg.crypto, d, th.pc.password, env.unlock.(now := now));
    var notes := UnlockEvents(d, u, now);
    UnlockEventsAreNotes(d, u, now);
    if u.result.Ok? {
      FoldQuiet(d.svc.grants, notes + [Authenticated(tid), ResetFailures]);
    } else if u.result == Err(AuthFailed) {
      RecordAccounts(cfg, now, u.after, draws, env.files, Done(Failed), notes);
    } else {
      FoldQuiet(d.svc.grants, notes);
    }
  }

  lemma AuthorizeGrantAccounts(cfg: Config, now: Instant, tid: Tid, th: Thread, d: Daemon, draws: nat, env: Env)
    requires th.pc.AuthorizeGrant?
    ensures Accounts(d.svc, ExecAuthorize(cfg, now, tid, th, d, draws, env), now)
  {
    hide Fold, Unlock, ResolvedKey;
    var key := ResolvedKey(cfg, th.peer, draws);
    GrantAccounts(cfg, tid, th.peer, draws, key, now, [], d.svc.grants);
    assert [] + DrawEvents(cfg, tid, th.peer, draws) == DrawEvents(cfg, tid, th.peer, draws);
  }

  lemma AuthorizeRestAccounts(cfg: Config, now: Instant, tid: Tid, th: Thread, d: Daemon, draws: nat, env: Env)
    requires IsAuthorize(th.pc) && !th.pc.AuthorizeUnlock? && !th.pc.AuthorizeGrant?
    ensures Accounts(d.svc, ExecAuthorize(cfg, now, tid, th, d, draws, env), now)
  {
    hide Fold, Unlock, ResolvedKey, BackoffRemaining, EpochSeconds;
    FoldQuiet(d.svc.grants, ExecAuthorize(cfg, now, tid, th, d, draws, env).events);
  }

  lemma ExecAuthorizeAccounts(cfg: Config, now: Instant, tid: Tid, th: Thread, d: Daemon, draws: nat, env: Env)
    requires IsAuthorize(th.pc) && Sound(d.svc)
    ensures Accounts(d.svc, ExecAuthorize(cfg, now, tid, th, d, draws, env), now)
  {
    hide ExecAuthorize, Accounts;
    if th.pc.AuthorizeUnlock? {
      AuthorizeUnlockAccounts(cfg, now, tid, th, d, draws, env);
    } else if th.pc.AuthorizeGrant? {
      AuthorizeGrantAccounts(cfg, now, tid, th, d, draws, env);
    } else {
      AuthorizeRestAccounts(cfg, now, tid, th, d, draws, env);
    }
  }

  lemma ExecSyncAccounts(cfg: Config, now: Instant, th: Thread, d: Daemon, draws: nat, env: Env)
    requires IsSync(th.pc)
    ensures Accounts(d.svc, ExecSync(cfg, now, th, d, draws, env), now)
  {
    var o := ExecSync(cfg, now, th, d, draws, env);
    if th.pc.RevokeLock? {
      LockdownAccounts(d, draws, o.pc, now);
    } else {
      FoldQuiet(d.svc.grants, o.events);
    }
  }

  lemma FoldClearing(m: map<U32, Instant>, rest: seq<Event>)
    requires forall e | e in rest :: !e.GrantedTo? && !Clears(e)
    ensures Fold(m, [Cleared] + rest) == map[]
  {
    FoldConcat(m, [Cleared], rest);
    FoldOne(m, Cleared);
    FoldQuiet(map[], rest);
  }

  lemma AutoLockAccounts(now: Instant, d: Daemon, draws: nat)
    ensures Accounts(d.svc, AutoLock(now, d, draws), now)
  {
    var o := AutoLock(now, d, draws);
    if IdleTooLong(d.svc, now) {
      FoldClearing(d.svc.grants, [AutoLocked(now)]);
      assert o.events == [Cleared] + [AutoLocked(now)];
    }
  }

  lemma ExecOtherAccounts(now: Instant, tid: Tid, th: Thread, d: Daemon, draws: nat, env: Env)
    ensures Accounts(d.svc, ExecOther(now, tid, th, d, draws, env), now)
  {
    hide Fold;
    var o := ExecOther(now, tid, th, d, draws, env);
    if th.pc.LockNow? {
      LockdownAccounts(d, draws, o.pc, now);
    } else if th.pc.AutoLockWrite? {
      AutoLockAccounts(now, d, draws);
    } else if th.pc.LogoutNow? {
      FoldClearing(d.svc.grants, CacheEvents(d, o.daemon));
    } else {
      FoldQuiet(d.svc.grants, o.events);
    }
  }

  lemma ExecAccounts(cfg: Config, now: Instant, tid: Tid, th: Thread, d: Daemon, draws: nat, env: Env)
    requires Sound(d.svc)
    ensures Accounts(d.svc, Exec(cfg, now, tid, th, d, draws, env), now)
  {
    hide ExecGate, ExecApproval, ExecAgent, ExecLogin, ExecAuthorize, ExecSync, ExecOther, Accounts;
    if th.pc.GateTouch? || th.pc.GateState? || th.pc.GateResolve? || th.pc.GateCheck? {
      ExecGateAccounts(cfg, now, tid, th, d, draws);
    } else if IsApproval(th.pc) {
      ExecApprovalAccounts(cfg, now, tid, th, d, draws, env);
    } else if IsAgent(th.pc) {
      ExecAgentAccounts(cfg, now, tid, th, d, draws, env);
    } else if IsLogin(th.pc) {
      ExecLoginAccounts(cfg, now, tid, th, d, draws, env);
    } else if IsAuthorize(th.pc) {
      ExecAuthorizeAccounts(cfg, now, tid, th, d, draws, env);
    } else if IsSync(th.pc) {
      ExecSyncAccounts(cfg, now, th, d, draws, env);
    } else {
      ExecOtherAccounts(now, tid, th, d, draws, env);
    }
  }

  // --- Over runs ---

  ghost predicate Inv(s: Sys)
  {
    && Residency.Inv(s)
    && s.daemon.svc.grants == Fold(map[], s.log)
    && TimesOrdered(s.log, s.now)
  }

  lemma AppendKeepsOrder(log: seq<Event>, es: seq<Event>, now: Instant)
    requires TimesOrdered(log, now)
    requires forall e | e in es && e.GrantedTo? :: e.at == now
    ensures TimesOrdered(log + es, now)
  {
    forall i | 0 <= i < |es| ensures es[i] in es {}
  }

  lemma StepKeepsInv(cfg: Config, s: Sys, a: Action)
    requires Inv(s)
    ensures Inv(Next(cfg, s, a))
  {
    hide Exec;
    Residency.StepSound(cfg, s, a);
    match a
    case Run(tid, env) =>
      if tid in s.threads {
        var o := Exec(cfg, s.now, tid, s.threads[tid], s.daemon, s.draws, env);
        ExecAccounts(cfg, s.now, tid, s.threads[tid], s.daemon, s.draws, env);
        FoldConcat(map[], s.log, o.events);
        AppendKeepsOrder(s.log, o.events, s.now);
      }
    case AutoLockTick =>
      var o := AutoLock(s.now, s.daemon, s.draws);
      AutoLockAccounts(s.now, s.daemon, s.draws);
      FoldConcat(map[], s.log, o.events);
      AppendKeepsOrder(s.log, o.events, s.now);
    case Restart(readable) =>
      FoldConcat(map[], s.log, [Restarted]);
      FoldOne(Fold(map[], s.log), Restarted);
      AppendKeepsOrder(s.log, [Restarted], s.now);
    case _ =>
  }

  lemma {:induction false} RunsKeepInv(cfg: Config, s: Sys, actions: seq<Action>)
    requires Inv(s)
    ensures Inv(Runs(cfg, s, actions))
    decreases |actions|
  {
    if actions != [] {
      StepKeepsInv(cfg, s, actions[0]);
      RunsKeepInv(cfg, Next(cfg, s, actions[0]), actions[1..]);
    }
  }

  lemma ReachableInv(cfg: Config, store: Store, prompt: PromptMethod, now: Instant, actions: seq<Action>)
    ensures Inv(Runs(cfg, Boot(cfg, store, prompt, now), actions))
  {
    Residency.KeyResidency(cfg, store, prompt, now, []);
    RunsKeepInv(cfg, Boot(cfg, store, prompt, now), actions);
  }

  /** Over every run, for every key and every time asked about: the cache as it
      stands approves the key at t exactly when some grant for it was recorded
      less than 300 seconds before t and neither a lock, nor a logout, nor a
      restart came after that grant. */
  lemma ApprovalRefinesLog(cfg: Config, store: Store, prompt: PromptMethod, now: Instant, actions: seq<Action>,
                           key: U32, t: Instant)
    ensures var s := Runs(cfg, Boot(cfg, store, prompt, now), actions);
            IsApproved(s.daemon.svc.grants, key, t) <==> LiveAt(s.log, key, t)
  {
    ReachableInv(cfg, store, prompt, now, actions);
    var s := Runs(cfg, Boot(cfg, store, prompt, now), actions);
    FoldMeetsSpec(s.log, s.now, key, t);
  }
}
