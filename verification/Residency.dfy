/** Key residency: the state invariant holds in every reachable state, under
    every interleaving of the sections, from any durable state. */
module Residency {
  import opened Base
  import opened VaultCaches
  import opened Service
  import opened Machine

  /** The state is sound and no approval is about to lock on entry. */
  ghost predicate Inv(s: Sys)
  {
    && Sound(s.daemon.svc)
    && forall tid | tid in s.threads :: !s.threads[tid].pc.ApprovalLock?
  }

  lemma ExecGateSound(cfg: Config, now: Instant, tid: Tid, th: Thread, d: Daemon, draws: nat)
    requires th.pc.GateTouch? || th.pc.GateState? || th.pc.GateResolve? || th.pc.GateCheck?
    requires Sound(d.svc)
    ensures var o := ExecGate(cfg, now, tid, th, d, draws); Sound(o.daemon.svc) && !o.pc.ApprovalLock?
  {
  }

  lemma ExecApprovalSound(cfg: Config, now: Instant, tid: Tid, th: Thread, d: Daemon, draws: nat, env: Env)
    requires IsApproval(th.pc) && !th.pc.ApprovalLock?
    requires Sound(d.svc)
    ensures var o := ExecApproval(cfg, now, tid, th, d, draws, env); Sound(o.daemon.svc) && !o.pc.ApprovalLock?
  {
  }

  lemma ExecAgentSound(cfg: Config, now: Instant, tid: Tid, th: Thread, d: Daemon, draws: nat, env: Env)
    requires IsAgent(th.pc)
    requires Sound(d.svc)
    ensures var o := ExecAgent(cfg, now, tid, th, d, draws, env); Sound(o.daemon.svc) && !o.pc.ApprovalLock?
  {
    hide Unlock;
    if th.pc.AgentUnlock? {
      UnlockSound(cfg.crypto, d, th.pc.password, env.unlock.(now := now));
    }
  }

  lemma ExecLoginSound(cfg: Config, now: Instant, tid: Tid, th: Thread, d: Daemon, draws: nat, env: Env)
    requires IsLogin(th.pc)
    requires Sound(d.svc)
    ensures var o := ExecLogin(cfg, now, tid, th, d, draws, env); Sound(o.daemon.svc) && !o.pc.ApprovalLock?
  {
    hide Unlock;
    if th.pc.UnlockRun? {
      UnlockSound(cfg.crypto, d, th.pc.password, env.unlock.(now := now));
    }
  }

  lemma ExecAuthorizeSound(cfg: Config, now: Instant, tid: Tid, th: Thread, d: Daemon, draws: nat, env: Env)
    requires IsAuthorize(th.pc)
    requires Sound(d.svc)
    ensures var o := ExecAuthorize(cfg, now, tid, th, d, draws, env); Sound(o.daemon.svc) && !o.pc.ApprovalLock?
  {
    hide Unlock;
    if th.pc.AuthorizeUnlock? {
      UnlockSound(cfg.crypto, d, th.pc.password, env.unlock.(now := now));
    }
  }

  lemma ExecSyncSound(cfg: Config, now: Instant, th: Thread, d: Daemon, draws: nat, env: Env)
    requires IsSync(th.pc)
    requires Sound(d.svc)
    ensures var o := ExecSync(cfg, now, th, d, draws, env); Sound(o.daemon.svc) && !o.pc.ApprovalLock?
  {
  }

  lemma ReadSound(tid: Tid, op: Op, d: Daemon, draws: nat, env: Env)
    requires Sound(d.svc)
    ensures var o := ExecRead(tid, op, d, draws, env); Sound(o.daemon.svc) && !o.pc.ApprovalLock?
  {
  }

  lemma ExecOtherSound(now: Instant, tid: Tid, th: Thread, d: Daemon, draws: nat, env: Env)
    requires !IsApproval(th.pc)
    requires Sound(d.svc)
    ensures var o := ExecOther(now, tid, th, d, draws, env); Sound(o.daemon.svc) && !o.pc.ApprovalLock?
  {
    hide ExecRead;
    if th.pc.Read? {
      ReadSound(tid, th.pc.op, d, draws, env);
    }
  }

  lemma StepSound(cfg: Config, s: Sys, a: Action)
    requires Inv(s)
    ensures Inv(Next(cfg, s, a))
  {
    hide ExecGate, ExecApproval, ExecAgent, ExecLogin, ExecAuthorize, ExecSync, ExecOther;
    match a
    case Run(tid, env) =>
      if tid in s.threads {
        var th := s.threads[tid];
        if th.pc.GateTouch? || th.pc.GateState? || th.pc.GateResolve? || th.pc.GateCheck? {
          ExecGateSound(cfg, s.now, tid, th, s.daemon, s.draws);
        } else if IsApproval(th.pc) {
          ExecApprovalSound(cfg, s.now, tid, th, s.daemon, s.draws, env);
        } else if IsAgent(th.pc) {
          ExecAgentSound(cfg, s.now, tid, th, s.daemon, s.draws, env);
        } else if IsLogin(th.pc) {
          ExecLoginSound(cfg, s.now, tid, th, s.daemon, s.draws, env);
        } else if IsAuthorize(th.pc) {
          ExecAuthorizeSound(cfg, s.now, tid, th, s.daemon, s.draws, env);
        } else if IsSync(th.pc) {
          ExecSyncSound(cfg, s.now, th, s.daemon, s.draws, env);
        } else {
          ExecOtherSound(s.now, tid, th, s.daemon, s.draws, env);
        }
      }
    case AutoLockTick =>
      if IdleTooLong(s.daemon.svc, s.now) {
        LockSound(s.daemon.svc);
      }
    case Restart(readable) =>
      var seen := Seen(s.daemon.store, readable);
      StartSound(seen, s.daemon.svc.prompt, s.now, EpochSeconds(s.now, cfg.offset), cfg.earliest);
    case _ =>
  }

  lemma {:induction false} RunsSound(cfg: Config, s: Sys, actions: seq<Action>)
    requires Inv(s)
    ensures Inv(Runs(cfg, s, actions))
    decreases |actions|
  {
    if actions != [] {
      StepSound(cfg, s, actions[0]);
      RunsSound(cfg, Next(cfg, s, actions[0]), actions[1..]);
    }
  }

  /** In every reachable state: the client holds keys iff the vault is unlocked
      iff a session exists, and the account fields are present, and agree, iff
      somebody is logged in. */
  lemma KeyResidency(cfg: Config, store: Store, prompt: PromptMethod, now: Instant, actions: seq<Action>)
    ensures Inv(Runs(cfg, Boot(cfg, store, prompt, now), actions))
  {
    StartSound(store, prompt, now, EpochSeconds(now, cfg.offset), cfg.earliest);
    RunsSound(cfg, Boot(cfg, store, prompt, now), actions);
  }

  /** Under any number of concurrent PIN prompts, no reachable state between
      sections has a session with three failed attempts; the check on entry to
      the approval flow therefore never fires. */
  lemma PinNeverExhausted(cfg: Config, store: Store, prompt: PromptMethod, now: Instant, actions: seq<Action>)
    ensures var s := Runs(cfg, Boot(cfg, store, prompt, now), actions);
            && !PinAttemptsExceeded(s.daemon.svc)
            && forall tid | tid in s.threads :: !s.threads[tid].pc.ApprovalLock?
  {
    KeyResidency(cfg, store, prompt, now, actions);
  }

  /** A thread about to check a PIN, when two attempts have failed and this one
      is wrong, leaves the vault locked with no grants and no keys. */
  lemma LastPinAttemptLocks(cfg: Config, store: Store, prompt: PromptMethod, now: Instant, actions: seq<Action>,
                            tid: Tid, env: Env)
    requires var s := Runs(cfg, Boot(cfg, store, prompt, now), actions);
             && tid in s.threads && s.threads[tid].pc.ApprovalPinVerify?
             && s.daemon.svc.session.Some? && s.daemon.svc.session.value.pinAttempts == 2
             && s.daemon.svc.session.value.pin != Some(s.threads[tid].pc.pin)
    ensures var t := Runs(cfg, Boot(cfg, store, prompt, now), actions + [Run(tid, env)]);
            t.daemon.svc.status.Locked? && t.daemon.svc.grants == map[] && !Keyed(t.daemon.svc)
  {
    KeyResidency(cfg, store, prompt, now, actions);
    var s := Runs(cfg, Boot(cfg, store, prompt, now), actions);
    RunsSnoc(cfg, Boot(cfg, store, prompt, now), actions, Run(tid, env));
    ThirdWrongPinLocks(s.daemon.svc, s.threads[tid].pc.pin);
  }
}
