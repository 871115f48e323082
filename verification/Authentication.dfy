/** What counts as having authenticated, said of a section's inputs and the state
    it meets, and that it is exactly what the machine counts. */
module Authentications {
  import opened Base
  import opened VaultCaches
  import opened Service
  import opened Machine
  import opened Unlocking
  import opened Histories
  import Residency

  /** The user is present: a biometric prompt said yes, the PIN given is the
      session's, the server accepted the password, or it opened the vault. */
  predicate Proves(cfg: Config, th: Thread, d: Daemon, env: Env)
  {
    match th.pc
    case ApprovalBiometric(_) => env.biometric && d.svc.prompt != Terminal && d.svc.prompt != NoPrompt
    case ApprovalPinVerify(_, pin) => d.svc.session.Some? && d.svc.session.value.pin == Some(pin)
    case ApprovalPasswordVerify(_) => d.svc.status.Unlocked? && env.verdict.None?
    case AuthorizeVerify(_) => d.svc.status.Unlocked? && env.verdict.None?
    case UnlockRun(_, password) => Opens(cfg.crypto, d, password, env.unlock)
    case AuthorizeUnlock(password, _) => Opens(cfg.crypto, d, password, env.unlock)
    case AgentUnlock(_, _, password) => Opens(cfg.crypto, d, password, env.unlock)
    case _ => false
  }

  /** The section logs an authentication of its own request exactly when the user
      proved to be present, and never another's. */
  ghost predicate CountsProofs(cfg: Config, tid: Tid, th: Thread, d: Daemon, env: Env, o: Out)
  {
    && (Authenticated(tid) in o.events <==> Proves(cfg, th, d, env))
    && forall e | e in o.events && e.Authenticated? :: e.tid == tid
  }

  lemma ApprovalCounts(cfg: Config, now: Instant, tid: Tid, th: Thread, d: Daemon, draws: nat, env: Env)
    requires IsApproval(th.pc) && Sound(d.svc)
    ensures CountsProofs(cfg, tid, th, d, env, ExecApproval(cfg, now, tid, th, d, draws, env))
  {
    var o := ExecApproval(cfg, now, tid, th, d, draws, env);
    if Proves(cfg, th, d, env) {
      assert o.events[0] == Authenticated(tid);
    }
  }

  /** The instant an unlock is given does not decide how it goes. */
  lemma OpensAtAnyTime(c: Crypto, d: Daemon, password: Password, io: UnlockInputs, now: Instant)
    ensures Opens(c, d, password, io.(now := now)) == Opens(c, d, password, io)
    ensures Refuses(c, d, password, io.(now := now)) == Refuses(c, d, password, io)
  {
  }

  lemma NotesProveNothing(before: Daemon, o: Outcome, now: Instant)
    ensures forall e | e in UnlockEvents(before, o, now) :: !e.Authenticated?
  {
    UnlockEventsAreNotes(before, o, now);
  }

  /** The three sections that try a password. */
  lemma UnlockCounts(cfg: Config, now: Instant, tid: Tid, th: Thread, d: Daemon, draws: nat, env: Env)
    requires AtUnlock(th.pc) && Sound(d.svc)
    ensures CountsProofs(cfg, tid, th, d, env, Exec(cfg, now, tid, th, d, draws, env))
  {
    hide Unlock, UnlockEvents, Opens, ResolvedKey, RecordFailure, ResetAttempts, EpochSeconds, Grant, DrawsAfter;
    hide Sound, Refuses, UnlockedKeys, CacheOpens;
    var u := Unlock(cfg.crypto, d, th.pc.password, env.unlock.(now := now));
    UnlockOutcome(cfg.crypto, d, th.pc.password, env.unlock.(now := now));
    OpensAtAnyTime(cfg.crypto, d, th.pc.password, env.unlock, now);
    var notes := UnlockEvents(d, u, now);
    NotesProveNothing(d, u, now);
    var o := Exec(cfg, now, tid, th, d, draws, env);
    if u.result.Ok? {
      assert o.events[|notes|] == Authenticated(tid);
    }
  }

  lemma AuthorizeCounts(cfg: Config, now: Instant, tid: Tid, th: Thread, d: Daemon, draws: nat, env: Env)
    requires IsAuthorize(th.pc) && !AtUnlock(th.pc) && Sound(d.svc)
    ensures CountsProofs(cfg, tid, th, d, env, ExecAuthorize(cfg, now, tid, th, d, draws, env))
  {
    hide Unlock, BackoffRemaining, EpochSeconds, ResolvedKey;
    var o := ExecAuthorize(cfg, now, tid, th, d, draws, env);
    if Proves(cfg, th, d, env) {
      assert o.events[0] == Authenticated(tid);
    }
  }

  lemma OthersCountNothing(cfg: Config, now: Instant, tid: Tid, th: Thread, d: Daemon, draws: nat, env: Env)
    requires !IsApproval(th.pc) && !IsAuthorize(th.pc) && !AtUnlock(th.pc)
    ensures CountsProofs(cfg, tid, th, d, env, Exec(cfg, now, tid, th, d, draws, env))
  {
    hide Unlock, BackoffRemaining, EpochSeconds, ResolvedKey;
  }

  lemma AuthenticatesIff(cfg: Config, now: Instant, tid: Tid, th: Thread, d: Daemon, draws: nat, env: Env)
    requires Sound(d.svc)
    ensures CountsProofs(cfg, tid, th, d, env, Exec(cfg, now, tid, th, d, draws, env))
  {
    hide ExecGate, ExecApproval, ExecAgent, ExecLogin, ExecAuthorize, ExecSync, ExecOther, CountsProofs;
    if AtUnlock(th.pc) {
      UnlockCounts(cfg, now, tid, th, d, draws, env);
    } else if IsApproval(th.pc) {
      ApprovalCounts(cfg, now, tid, th, d, draws, env);
    } else if IsAuthorize(th.pc) {
      AuthorizeCounts(cfg, now, tid, th, d, draws, env);
    } else {
      OthersCountNothing(cfg, now, tid, th, d, draws, env);
    }
  }

  // --- Over runs ---

  /** Action m of the run is a section of this request in which the user proved to
      be present. */
  ghost predicate ProvedAt(cfg: Config, start: Sys, actions: seq<Action>, m: nat, tid: Tid)
  {
    && m < |actions| && actions[m].Run? && actions[m].tid == tid
    && var s := At(cfg, start, actions, m);
       tid in s.threads && Proves(cfg, s.threads[tid], s.daemon, actions[m].env)
  }

  lemma AutoLockProvesNothing(now: Instant, d: Daemon, draws: nat)
    ensures forall e | e in AutoLock(now, d, draws).events :: !e.Authenticated?
  {
  }

  /** The step that logged an authentication was such a section. */
  lemma StepProves(cfg: Config, s: Sys, a: Action, p: nat)
    requires Residency.Inv(s)
    requires |s.log| <= p < |Next(cfg, s, a).log| && Next(cfg, s, a).log[p].Authenticated?
    ensures var tid := Next(cfg, s, a).log[p].tid;
            a.Run? && a.tid == tid && tid in s.threads && Proves(cfg, s.threads[tid], s.daemon, a.env)
  {
    hide Exec, AutoLock, Proves, Start;
    AutoLockProvesNothing(s.now, s.daemon, s.draws);
    var e := Next(cfg, s, a).log[p];
    match a
    case Run(tid, env) =>
      if tid in s.threads {
        var o := Exec(cfg, s.now, tid, s.threads[tid], s.daemon, s.draws, env);
        AuthenticatesIff(cfg, s.now, tid, s.threads[tid], s.daemon, s.draws, env);
        assert o.events[p - |s.log|] == e;
      }
    case _ =>
  }

  /** Every authentication in the log of a run is the work of one of its actions. */
  lemma WasProved(cfg: Config, store: Store, prompt: PromptMethod, now: Instant, actions: seq<Action>, p: nat)
    returns (m: nat)
    requires var log := Runs(cfg, Boot(cfg, store, prompt, now), actions).log; p < |log| && log[p].Authenticated?
    ensures var boot := Boot(cfg, store, prompt, now);
            && Wrote(cfg, boot, actions, m, p)
            && ProvedAt(cfg, boot, actions, m, Runs(cfg, boot, actions).log[p].tid)
  {
    hide Next, Proves, Runs;
    var boot := Boot(cfg, store, prompt, now);
    m := Writer(cfg, boot, actions, p);
    Residency.KeyResidency(cfg, store, prompt, now, actions[..m]);
    StepProves(cfg, At(cfg, boot, actions, m), actions[m], p);
  }
}
