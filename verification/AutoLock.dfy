/** The auto-lock worker against concurrent activity. */
module AutoLocking {
  import opened Base
  import opened VaultCaches
  import opened Service
  import opened Machine
  import opened Unlocking
  import opened Authentications
  import opened Histories
  import Residency

  const TIMEOUT: int := 900 * SECOND
  const TICK: int := 30 * SECOND

  /** Activity is never ahead of the clock, at least as recent as every touch in
      the log, and no automatic lock in the log follows a touch too soon. */
  ghost predicate Inv(s: Sys)
  {
    && Residency.Inv(s)
    && s.daemon.svc.lastActivity <= s.now && s.lastTick <= s.now
    && (forall i | 0 <= i < |s.log| && s.log[i].Touched? :: s.log[i].at <= s.daemon.svc.lastActivity)
    && (forall i, j | 0 <= i < j < |s.log| && s.log[i].Touched? && s.log[j].AutoLocked? ::
          s.log[i].at + TIMEOUT <= s.log[j].at)
    && (s.daemon.svc.status.Unlocked? ==> s.lastTick < s.daemon.svc.lastActivity + TIMEOUT)
  }

  predicate Activity(d: Daemon, now: Instant, o: Out)
  {
    && (o.daemon.svc.lastActivity == d.svc.lastActivity || o.daemon.svc.lastActivity == now)
    && (o.daemon.svc.status.Unlocked? ==> d.svc.status.Unlocked? || o.daemon.svc.lastActivity == now)
    && (forall e | e in o.events && e.Touched? :: e.at == now && o.daemon.svc.lastActivity == now)
    && (forall e | e in o.events && e.AutoLocked? ::
          e.at == now && d.svc.lastActivity + TIMEOUT <= now && forall f | f in o.events :: !f.Touched?)
  }

  lemma GateActivity(cfg: Config, now: Instant, tid: Tid, th: Thread, d: Daemon, draws: nat, env: Env)
    requires th.pc.GateTouch? || th.pc.GateState? || th.pc.GateResolve? || th.pc.GateCheck? || IsSync(th.pc)
    ensures Activity(d, now, Exec(cfg, now, tid, th, d, draws, env))
  {
  }

  lemma ApprovalActivity(cfg: Config, now: Instant, tid: Tid, th: Thread, d: Daemon, draws: nat, env: Env)
    requires IsApproval(th.pc)
    ensures Activity(d, now, ExecApproval(cfg, now, tid, th, d, draws, env))
  {
  }

  lemma AgentActivity(cfg: Config, now: Instant, tid: Tid, th: Thread, d: Daemon, draws: nat, env: Env)
    requires IsAgent(th.pc) && Sound(d.svc)
    ensures Activity(d, now, ExecAgent(cfg, now, tid, th, d, draws, env))
  {
    hide Unlock;
    if th.pc.AgentUnlock? {
      UnlockSound(cfg.crypto, d, th.pc.password, env.unlock.(now := now));
      FailedUnlockKeepsActivity(cfg.crypto, d, th.pc.password, env.unlock.(now := now));
    }
  }

  lemma FailedUnlockKeepsActivity(c: Crypto, d: Daemon, password: Password, io: UnlockInputs)
    requires Sound(d.svc)
    ensures Unlock(c, d, password, io).result.Err? ==>
              Unlock(c, d, password, io).after.svc == d.svc.(sdk := Unlock(c, d, password, io).after.svc.sdk)
  {
    if Unlock(c, d, password, io).result.Err? {
      FailedUnlockLeavesNoTrace(c, d, password, io);
    }
  }

  lemma UnlockRunActivity(cfg: Config, now: Instant, tid: Tid, th: Thread, d: Daemon, draws: nat, env: Env)
    requires th.pc.UnlockRun? && Sound(d.svc)
    ensures Activity(d, now, ExecLogin(cfg, now, tid, th, d, draws, env))
  {
    hide Unlock, EpochSeconds, ResolvedKey;
    UnlockSound(cfg.crypto, d, th.pc.password, env.unlock.(now := now));
    FailedUnlockKeepsActivity(cfg.crypto, d, th.pc.password, env.unlock.(now := now));
  }

  lemma LoginActivity(cfg: Config, now: Instant, tid: Tid, th: Thread, d: Daemon, draws: nat, env: Env)
    requires IsLogin(th.pc) && Sound(d.svc)
    ensures Activity(d, now, ExecLogin(cfg, now, tid, th, d, draws, env))
  {
    if th.pc.UnlockRun? {
      UnlockRunActivity(cfg, now, tid, th, d, draws, env);
    } else {
      hide Unlock, BackoffRemaining, EpochSeconds;
    }
  }

  lemma AuthorizeActivity(cfg: Config, now: Instant, tid: Tid, th: Thread, d: Daemon, draws: nat, env: Env)
    requires IsAuthorize(th.pc) && Sound(d.svc)
    ensures Activity(d, now, ExecAuthorize(cfg, now, tid, th, d, draws, env))
  {
    hide Unlock;
    if th.pc.AuthorizeUnlock? {
      UnlockSound(cfg.crypto, d, th.pc.password, env.unlock.(now := now));
      FailedUnlockKeepsActivity(cfg.crypto, d, th.pc.password, env.unlock.(now := now));
    }
  }

  lemma OtherActivity(now: Instant, tid: Tid, th: Thread, d: Daemon, draws: nat, env: Env)
    requires d.svc.lastActivity <= now
    ensures Activity(d, now, ExecOther(now, tid, th, d, draws, env))
  {
  }

  lemma AnyActivity(cfg: Config, now: Instant, tid: Tid, th: Thread, d: Daemon, draws: nat, env: Env)
    requires Sound(d.svc) && d.svc.lastActivity <= now
    ensures Activity(d, now, Exec(cfg, now, tid, th, d, draws, env))
  {
    hide ExecGate, ExecApproval, ExecAgent, ExecLogin, ExecAuthorize, ExecSync, ExecOther, Activity;
    if IsAgent(th.pc) {
      AgentActivity(cfg, now, tid, th, d, draws, env);
    } else if IsLogin(th.pc) {
      LoginActivity(cfg, now, tid, th, d, draws, env);
    } else if IsAuthorize(th.pc) {
      AuthorizeActivity(cfg, now, tid, th, d, draws, env);
    } else if IsApproval(th.pc) {
      ApprovalActivity(cfg, now, tid, th, d, draws, env);
    } else if th.pc.GateTouch? || th.pc.GateState? || th.pc.GateResolve? || th.pc.GateCheck? || IsSync(th.pc) {
      GateActivity(cfg, now, tid, th, d, draws, env);
    } else {
      OtherActivity(now, tid, th, d, draws, env);
    }
  }

  lemma OutcomeKeepsInv(s: Sys, t: Sys, o: Out)
    requires Inv(s) && Residency.Inv(t) && Activity(s.daemon, s.now, o)
    requires t.daemon == o.daemon && t.now == s.now && t.log == s.log + o.events
    requires t.lastTick == s.lastTick
    ensures Inv(t)
  {
    hide Sound;
    forall i | |s.log| <= i < |t.log| ensures t.log[i] in o.events {
      assert t.log[i] == o.events[i - |s.log|];
    }
  }

  lemma StepKeepsInv(cfg: Config, s: Sys, a: Action)
    requires Inv(s)
    ensures Inv(Next(cfg, s, a))
  {
    hide Exec, Sound;
    Residency.StepSound(cfg, s, a);
    var t := Next(cfg, s, a);
    match a
    case Run(tid, env) =>
      if tid in s.threads {
        AnyActivity(cfg, s.now, tid, s.threads[tid], s.daemon, s.draws, env);
        OutcomeKeepsInv(s, t, Exec(cfg, s.now, tid, s.threads[tid], s.daemon, s.draws, env));
      }
    case AutoLockTick =>
      TickActivity(s.now, s.daemon, s.draws);
      OutcomeKeepsInv(s, t.(lastTick := s.lastTick), AutoLock(s.now, s.daemon, s.draws));
    case Restart(readable) => RestartKeepsInv(s, t);
    case _ =>
  }

  lemma TickActivity(now: Instant, d: Daemon, draws: nat)
    requires d.svc.lastActivity <= now
    ensures Activity(d, now, AutoLock(now, d, draws))
    ensures var s := AutoLock(now, d, draws).daemon.svc; s.status.Unlocked? ==> now < s.lastActivity + TIMEOUT
  {
  }

  lemma RestartKeepsInv(s: Sys, t: Sys)
    requires Inv(s) && Residency.Inv(t) && t.log == s.log + [Restarted]
    requires t.daemon.svc.lastActivity == s.now && t.now == s.now && t.lastTick == s.now
    requires !t.daemon.svc.status.Unlocked?
    ensures Inv(t)
  {
    hide Sound;
  }

  lemma {:induction false} RunsKeepInv(cfg: Config, s: Sys, actions: seq<Action>)
    requires Inv(s)
    ensures Inv(Runs(cfg, s, actions))
    decreases |actions|
  {
    hide Next;
    if actions != [] {
      StepKeepsInv(cfg, s, actions[0]);
      RunsKeepInv(cfg, Next(cfg, s, actions[0]), actions[1..]);
    }
  }

  lemma ReachableInv(cfg: Config, store: Store, prompt: PromptMethod, now: Instant, actions: seq<Action>)
    ensures Inv(Runs(cfg, Boot(cfg, store, prompt, now), actions))
  {
    Residency.KeyResidency(cfg, store, prompt, now, []);
    RunsKeepInv(cfg, Boot(cfg, store, prompt, now), actions);
  }

  /** Over every run, wherever touches fall between the worker's read check and
      its write lock: an automatic lock comes at least 900 seconds after every
      earlier touch, be it a gated request, a login or an unlock. */
  lemma NeverLocksRecentlyTouched(cfg: Config, store: Store, prompt: PromptMethod, now: Instant, actions: seq<Action>,
                                  i: nat, j: nat)
    requires var log := Runs(cfg, Boot(cfg, store, prompt, now), actions).log;
             i < j < |log| && log[i].Touched? && log[j].AutoLocked?
    ensures var log := Runs(cfg, Boot(cfg, store, prompt, now), actions).log;
            log[j].at >= log[i].at + 900 * SECOND
  {
    ReachableInv(cfg, store, prompt, now, actions);
  }

  /** While the worker's last round, run without waiting for the lock, is at most
      30 seconds old, no unlocked vault has been idle for 930 seconds. */
  lemma NeverIdleTooLong(cfg: Config, store: Store, prompt: PromptMethod, now: Instant, actions: seq<Action>)
    requires var s := Runs(cfg, Boot(cfg, store, prompt, now), actions); s.now <= s.lastTick + TICK
    ensures var s := Runs(cfg, Boot(cfg, store, prompt, now), actions);
            s.daemon.svc.status.Unlocked? ==> s.now - s.daemon.svc.lastActivity < 930 * SECOND
  {
    ReachableInv(cfg, store, prompt, now, actions);
  }

  // --- Said of the actions of the run ---

  /** The sections that count as activity: every gated request, a login that the server
      accepts, a password that opens the vault. */
  predicate Touches(cfg: Config, th: Thread, d: Daemon, env: Env)
  {
    match th.pc
    case GateTouch(_) => true
    case LoginRun(_, _, _) => d.svc.status.LoggedOut? && env.verdict.None?
    case UnlockRun(_, password) => Opens(cfg.crypto, d, password, env.unlock)
    case AuthorizeUnlock(password, _) => Opens(cfg.crypto, d, password, env.unlock)
    case AgentUnlock(_, _, password) => Opens(cfg.crypto, d, password, env.unlock)
    case _ => false
  }

  lemma UnlockTouches(cfg: Config, now: Instant, tid: Tid, th: Thread, d: Daemon, draws: nat, env: Env)
    requires AtUnlock(th.pc) && Sound(d.svc)
    ensures Exec(cfg, now, tid, th, d, draws, env).daemon.svc.lastActivity
         == if Touches(cfg, th, d, env) then now else d.svc.lastActivity
  {
    hide Exec, Unlock, Opens;
    var p, io := th.pc.password, env.unlock.(now := now);
    UnlockSectionEffect(cfg, now, tid, th, d, draws, env);
    UnlockOutcome(cfg.crypto, d, p, io);
    OpensAtAnyTime(cfg.crypto, d, p, env.unlock, now);
    UnlockSound(cfg.crypto, d, p, io);
    FailedUnlockKeepsActivity(cfg.crypto, d, p, io);
  }

  lemma TouchesIff(cfg: Config, now: Instant, tid: Tid, th: Thread, d: Daemon, draws: nat, env: Env)
    requires Sound(d.svc)
    ensures Exec(cfg, now, tid, th, d, draws, env).daemon.svc.lastActivity
         == if Touches(cfg, th, d, env) then now else d.svc.lastActivity
  {
    hide Unlock, Opens, BackoffRemaining, EpochSeconds, ResolvedKey;
    if AtUnlock(th.pc) {
      UnlockTouches(cfg, now, tid, th, d, draws, env);
    }
  }

  /** When there last was activity, read off the actions of a run. */
  function LastTouch(cfg: Config, start: Sys, actions: seq<Action>): Instant
    decreases |actions|
  {
    if actions == [] then start.daemon.svc.lastActivity
    else
      var n := |actions| - 1;
      var s := Runs(cfg, start, actions[..n]);
      match actions[n]
      case Run(tid, env) =>
        if tid in s.threads && Touches(cfg, s.threads[tid], s.daemon, env) then s.now
        else LastTouch(cfg, start, actions[..n])
      case Restart(_) => s.now
      case _ => LastTouch(cfg, start, actions[..n])
  }

  lemma StepTouches(cfg: Config, s: Sys, a: Action)
    requires Residency.Inv(s)
    ensures Next(cfg, s, a).daemon.svc.lastActivity
         == if (a.Run? && a.tid in s.threads && Touches(cfg, s.threads[a.tid], s.daemon, a.env)) || a.Restart?
            then s.now else s.daemon.svc.lastActivity
  {
    hide Exec, Touches, Sound;
    if a.Run? && a.tid in s.threads {
      TouchesIff(cfg, s.now, a.tid, s.threads[a.tid], s.daemon, s.draws, a.env);
    }
  }

  lemma {:induction false} ActivityIsLastTouch(cfg: Config, start: Sys, actions: seq<Action>)
    requires Residency.Inv(start)
    ensures Runs(cfg, start, actions).daemon.svc.lastActivity == LastTouch(cfg, start, actions)
    decreases |actions|
  {
    hide Next, Touches, Sound;
    if actions != [] {
      var n := |actions| - 1;
      ActivityIsLastTouch(cfg, start, actions[..n]);
      Residency.RunsSound(cfg, start, actions[..n]);
      StepTouches(cfg, Runs(cfg, start, actions[..n]), actions[n]);
      RunsSnoc(cfg, start, actions[..n], actions[n]);
      assert actions == actions[..n] + [actions[n]];
    }
  }

  /** Over every run: a round of the auto-lock worker, with or without waiting for the
      lock, locks an unlocked vault exactly when the last activity of the run is 900
      seconds ago or longer. */
  lemma LocksIffIdle(cfg: Config, store: Store, prompt: PromptMethod, now: Instant, actions: seq<Action>, a: Action)
    requires var s := Runs(cfg, Boot(cfg, store, prompt, now), actions);
             && s.daemon.svc.status.Unlocked?
             && (a.AutoLockTick? || (a.Run? && a.tid in s.threads && s.threads[a.tid].pc.AutoLockWrite?))
    ensures var boot := Boot(cfg, store, prompt, now);
            var s := Runs(cfg, boot, actions);
            !Next(cfg, s, a).daemon.svc.status.Unlocked? <==> s.now >= LastTouch(cfg, boot, actions) + 900 * SECOND
  {
    hide Runs, LastTouch, Boot, Sound;
    Residency.KeyResidency(cfg, store, prompt, now, []);
    AtEnds(cfg, Boot(cfg, store, prompt, now), []);
    ActivityIsLastTouch(cfg, Boot(cfg, store, prompt, now), actions);
    IdleLocks(cfg, Runs(cfg, Boot(cfg, store, prompt, now), actions), a);
  }

  lemma IdleLocks(cfg: Config, s: Sys, a: Action)
    requires s.daemon.svc.status.Unlocked?
    requires a.AutoLockTick? || (a.Run? && a.tid in s.threads && s.threads[a.tid].pc.AutoLockWrite?)
    ensures !Next(cfg, s, a).daemon.svc.status.Unlocked? <==> s.now >= s.daemon.svc.lastActivity + 900 * SECOND
  {
  }
}
