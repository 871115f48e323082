/** The session PIN: what setting one means for every later attempt, over one call
    and over whole runs (crates/grimoire-service/src/state.rs, approval.rs). */
module Pins {
  import opened Base
  import opened VaultCaches
  import opened Service
  import opened Machine
  import opened Unlocking
  import opened Authentications
  import opened Histories
  import Residency

  /** Once a PIN of four bytes or more is set in an unlocked vault, it and nothing else
      is accepted; being right forgets the failures and being wrong adds one. A shorter
      one, or any while the vault is not unlocked, is refused and changes nothing. */
  lemma SetThenVerify(s: Svc, pin: Pin, candidate: Pin)
    requires Sound(s)
    ensures var (r, t) := SetPin(s, pin);
            && (r.Ok? <==> s.status.Unlocked? && |pin| >= 4) && (r.Err? ==> t == s)
            && (r.Ok? ==>
                  var (ok, u) := VerifyPin(t, candidate);
                  var failures := if candidate == pin then 0 else s.session.value.pinAttempts + 1;
                  (ok <==> candidate == pin) && u == s.(session := Some(Session(Some(pin), failures))))
  {
  }

  /** Without a PIN nothing is accepted. */
  lemma NothingMatchesNoPin(s: Svc, candidate: Pin)
    requires s.session.Some? ==> s.session.value.pin.None?
    ensures !VerifyPin(s, candidate).0
  {
  }

  // --- Over runs ---

  /** The PIN in force after a run, read off its actions: the last one set since the
      vault was last unlocked. */
  function PinInForce(cfg: Config, start: Sys, actions: seq<Action>): Option<Pin>
    decreases |actions|
  {
    if actions == [] then None
    else
      var n, a := |actions| - 1, actions[|actions| - 1];
      var s := Runs(cfg, start, actions[..n]);
      if !s.daemon.svc.status.Unlocked? then None
      else if a.Run? && a.tid in s.threads && s.threads[a.tid].pc.SetPinNow? && |s.threads[a.tid].pc.pin| >= 4 then
        Some(s.threads[a.tid].pc.pin)
      else PinInForce(cfg, start, actions[..n])
  }

  /** How many wrong PINs were given since then and since the last right one. */
  function WrongPins(cfg: Config, start: Sys, actions: seq<Action>): nat
    decreases |actions|
  {
    if actions == [] then 0
    else
      var n, a := |actions| - 1, actions[|actions| - 1];
      var s := Runs(cfg, start, actions[..n]);
      if !s.daemon.svc.status.Unlocked? then 0
      else if a.Run? && a.tid in s.threads && s.threads[a.tid].pc.ApprovalPinVerify? then
        if PinInForce(cfg, start, actions[..n]) == Some(s.threads[a.tid].pc.pin) then 0
        else WrongPins(cfg, start, actions[..n]) + 1
      else WrongPins(cfg, start, actions[..n])
  }

  /** What a section does to the session of a vault that is unlocked after it. */
  predicate SessionStep(th: Thread, before: Svc, after: Svc)
  {
    after.status.Unlocked? ==>
      if !before.status.Unlocked? then after.session == Some(Session(None, 0))
      else if th.pc.SetPinNow? && |th.pc.pin| >= 4 then
        before.session.Some? && after.session == Some(before.session.value.(pin := Some(th.pc.pin)))
      else if th.pc.ApprovalPinVerify? then
        && before.session.Some?
        && after.session == Some(before.session.value.(
             pinAttempts := if before.session.value.pin == Some(th.pc.pin) then 0
                            else before.session.value.pinAttempts + 1))
      else after.session == before.session
  }

  lemma UnlockSession(cfg: Config, now: Instant, tid: Tid, th: Thread, d: Daemon, draws: nat, env: Env)
    requires AtUnlock(th.pc) && Sound(d.svc)
    ensures SessionStep(th, d.svc, Exec(cfg, now, tid, th, d, draws, env).daemon.svc)
  {
    hide Exec, Unlock, Opens, Refuses, UnlockedKeys;
    var p, io := th.pc.password, env.unlock.(now := now);
    UnlockSectionEffect(cfg, now, tid, th, d, draws, env);
    UnlockOutcome(cfg.crypto, d, p, io);
    UnlockSound(cfg.crypto, d, p, io);
    if Unlock(cfg.crypto, d, p, io).result.Err? {
      FailedUnlockLeavesNoTrace(cfg.crypto, d, p, io);
    }
  }

  lemma OtherSession(cfg: Config, now: Instant, tid: Tid, th: Thread, d: Daemon, draws: nat, env: Env)
    requires !AtUnlock(th.pc) && !IsApproval(th.pc) && Sound(d.svc)
    ensures SessionStep(th, d.svc, Exec(cfg, now, tid, th, d, draws, env).daemon.svc)
  {
    hide Unlock, UnlockEvents, ResolvedKey, BackoffRemaining, EpochSeconds;
  }

  lemma ApprovalSession(cfg: Config, now: Instant, tid: Tid, th: Thread, d: Daemon, draws: nat, env: Env)
    requires IsApproval(th.pc) && Sound(d.svc)
    ensures SessionStep(th, d.svc, ExecApproval(cfg, now, tid, th, d, draws, env).daemon.svc)
  {
  }

  lemma AnySession(cfg: Config, now: Instant, tid: Tid, th: Thread, d: Daemon, draws: nat, env: Env)
    requires Sound(d.svc)
    ensures SessionStep(th, d.svc, Exec(cfg, now, tid, th, d, draws, env).daemon.svc)
  {
    hide ExecGate, ExecApproval, ExecAgent, ExecLogin, ExecAuthorize, ExecSync, ExecOther, SessionStep;
    if AtUnlock(th.pc) {
      UnlockSession(cfg, now, tid, th, d, draws, env);
    } else if IsApproval(th.pc) {
      ApprovalSession(cfg, now, tid, th, d, draws, env);
    } else {
      OtherSession(cfg, now, tid, th, d, draws, env);
    }
  }

  lemma StepSession(cfg: Config, s: Sys, a: Action)
    requires Residency.Inv(s)
    ensures var t := Next(cfg, s, a).daemon.svc;
            if a.Run? && a.tid in s.threads then SessionStep(s.threads[a.tid], s.daemon.svc, t)
            else t.status.Unlocked? ==> s.daemon.svc.status.Unlocked? && t.session == s.daemon.svc.session
  {
    hide Exec, SessionStep;
    if a.Run? && a.tid in s.threads {
      AnySession(cfg, s.now, a.tid, s.threads[a.tid], s.daemon, s.draws, a.env);
    }
  }

  /** Over every run: the session's PIN is the last one set since the vault was last
      unlocked, and its failures are the wrong ones given since then and since the
      last right one. */
  lemma {:induction false} SessionIsHistory(cfg: Config, store: Store, prompt: PromptMethod, now: Instant,
                                            actions: seq<Action>)
    ensures var boot := Boot(cfg, store, prompt, now);
            var s := Runs(cfg, boot, actions).daemon.svc;
            s.status.Unlocked? ==>
              s.session == Some(Session(PinInForce(cfg, boot, actions), WrongPins(cfg, boot, actions)))
    decreases |actions|
  {
    hide Next, Sound;
    var boot := Boot(cfg, store, prompt, now);
    if actions == [] {
      BootIsLocked(cfg, store, prompt, now);
    } else {
      hide Boot;
      var n := |actions| - 1;
      var s := Runs(cfg, boot, actions[..n]);
      SessionIsHistory(cfg, store, prompt, now, actions[..n]);
      Residency.KeyResidency(cfg, store, prompt, now, actions[..n]);
      StepSession(cfg, s, actions[n]);
      RunsSnoc(cfg, boot, actions[..n], actions[n]);
      assert actions == actions[..n] + [actions[n]];
    }
  }

  lemma BootIsLocked(cfg: Config, store: Store, prompt: PromptMethod, now: Instant)
    ensures !Boot(cfg, store, prompt, now).daemon.svc.status.Unlocked?
  {
  }

  /** So, whoever gives it: a PIN is accepted exactly when it is the last one set, and
      a third wrong one in a row locks the vault, with no grants and no keys left. */
  lemma PinDecidesOverRuns(cfg: Config, store: Store, prompt: PromptMethod, now: Instant, actions: seq<Action>,
                           tid: Tid, env: Env)
    requires var s := Runs(cfg, Boot(cfg, store, prompt, now), actions);
             tid in s.threads && s.threads[tid].pc.ApprovalPinVerify? && s.daemon.svc.status.Unlocked?
    ensures var boot := Boot(cfg, store, prompt, now);
            var s := Runs(cfg, boot, actions);
            var t := Next(cfg, s, Run(tid, env));
            var op, pin := s.threads[tid].pc.op, s.threads[tid].pc.pin;
            if PinInForce(cfg, boot, actions) == Some(pin) then
              t.threads[tid].pc == ApprovalResolve(op) && t.daemon.svc.status.Unlocked?
            else
              && t.threads[tid].pc == ApprovalDenied(op)
              && (t.daemon.svc.status.Unlocked? <==> WrongPins(cfg, boot, actions) < 2)
              && (!t.daemon.svc.status.Unlocked? ==>
                    t.daemon.svc.status.Locked? && t.daemon.svc.grants == map[] && !Keyed(t.daemon.svc))
  {
    hide Runs, Boot, Exec, PinInForce, WrongPins;
    SessionIsHistory(cfg, store, prompt, now, actions);
    Residency.KeyResidency(cfg, store, prompt, now, actions);
    var s := Runs(cfg, Boot(cfg, store, prompt, now), actions);
    PinVerdict(cfg, s.now, tid, s.threads[tid], s.daemon, s.draws, env);
  }

  lemma PinVerdict(cfg: Config, now: Instant, tid: Tid, th: Thread, d: Daemon, draws: nat, env: Env)
    requires th.pc.ApprovalPinVerify? && Sound(d.svc) && d.svc.status.Unlocked?
    ensures var o := Exec(cfg, now, tid, th, d, draws, env);
            var t := o.daemon.svc;
            if d.svc.session.value.pin == Some(th.pc.pin) then o.pc == ApprovalResolve(th.pc.op) && t.status.Unlocked?
            else
              && o.pc == ApprovalDenied(th.pc.op)
              && (t.status.Unlocked? <==> d.svc.session.value.pinAttempts < 2)
              && (!t.status.Unlocked? ==> t.status.Locked? && t.grants == map[] && !Keyed(t))
  {
  }
}
