/** Which sections meet a wrong password and which a right one, said of their
    inputs and the state they meet. */
module Refusals {
  import opened Base
  import opened VaultCaches
  import opened Service
  import opened Machine
  import opened Unlocking
  import opened Histories
  import Residency

  /** A section in which a password is wrong: the server refuses a login, neither
      cache nor server accept it for an unlock, or a refusal by the server is being
      carried out. The SSH agent takes any failure of an unlock for one. */
  predicate Wrong(cfg: Config, th: Thread, d: Daemon, env: Env)
  {
    match th.pc
    case LoginRun(_, _, _) => d.svc.status.LoggedOut? && env.verdict == Some(AuthFailed)
    case UnlockRun(_, password) => Refuses(cfg.crypto, d, password, env.unlock)
    case AuthorizeUnlock(password, _) => Refuses(cfg.crypto, d, password, env.unlock)
    case AgentUnlock(_, _, password) => !Opens(cfg.crypto, d, password, env.unlock)
    case AuthorizeRecord(_) => true
    case _ => false
  }

  /** A section in which a password is right, or a right one is being carried out. */
  predicate Right(cfg: Config, th: Thread, d: Daemon, env: Env)
  {
    match th.pc
    case LoginRun(_, _, _) => d.svc.status.LoggedOut? && env.verdict.None?
    case UnlockRun(_, password) => Opens(cfg.crypto, d, password, env.unlock)
    case AuthorizeUnlock(password, _) => Opens(cfg.crypto, d, password, env.unlock)
    case AgentUnlock(_, _, password) => Opens(cfg.crypto, d, password, env.unlock)
    case AuthorizeReset => true
    case _ => false
  }

  /** Whether failures are followed within one process only, or from an instant on
      across restarts. */
  datatype Span = OneProcess | AcrossRestarts(start: Instant)

  /** When passwords were wrong in a run, since the last right one and, if only one
      process is followed, since it started. */
  function RefusedTimes(cfg: Config, start: Sys, actions: seq<Action>, span: Span): seq<Instant>
    decreases |actions|
  {
    if actions == [] then []
    else
      var n := |actions| - 1;
      var s := Runs(cfg, start, actions[..n]);
      var before := RefusedTimes(cfg, start, actions[..n], span);
      match actions[n]
      case Run(tid, env) =>
        if tid !in s.threads then before
        else if Wrong(cfg, s.threads[tid], s.daemon, env) then before + [s.now]
        else if Right(cfg, s.threads[tid], s.daemon, env) then []
        else before
      case Restart(_) => if span.OneProcess? then [] else before
      case _ => before
  }

  /** A request whose password the server refuses while the vault is unlocked goes on
      to record that, and only such a request does. */
  lemma RefusedVerifyRecords(cfg: Config, now: Instant, tid: Tid, th: Thread, d: Daemon, draws: nat, env: Env)
    requires Sound(d.svc)
    ensures var o := Exec(cfg, now, tid, th, d, draws, env);
            th.pc.AuthorizeVerify? ==>
              && (o.pc.AuthorizeRecord? <==> d.svc.status.Unlocked? && env.verdict == Some(AuthFailed))
              && (o.pc.AuthorizeReset? <==> d.svc.status.Unlocked? && env.verdict.None?)
    ensures var o := Exec(cfg, now, tid, th, d, draws, env);
            (o.pc.AuthorizeRecord? ==> th.pc.AuthorizeVerify?) && (o.pc.AuthorizeReset? ==> th.pc.AuthorizeVerify?)
  {
    hide Unlock, UnlockEvents, ResolvedKey, BackoffRemaining, EpochSeconds;
  }

  /** Action m of the run is this request having its password judged by the server,
      for an unlocked vault. */
  ghost predicate JudgedAt(cfg: Config, start: Sys, actions: seq<Action>, m: nat, tid: Tid, verdict: Option<SdkError>)
  {
    && m < |actions| && actions[m].Run? && actions[m].tid == tid && actions[m].env.verdict == verdict
    && var s := At(cfg, start, actions, m);
       tid in s.threads && s.threads[tid].pc.AuthorizeVerify? && s.daemon.svc.status.Unlocked?
  }

  /** A request about to record a failure, or to reset the count, was judged so by the
      server in an earlier action of the run. */
  lemma {:induction false} WasJudged(cfg: Config, start: Sys, actions: seq<Action>, tid: Tid) returns (m: nat)
    requires start.threads == map[] && Residency.Inv(start)
    requires var s := Runs(cfg, start, actions);
             tid in s.threads && (s.threads[tid].pc.AuthorizeRecord? || s.threads[tid].pc.AuthorizeReset?)
    ensures var verdict := if Runs(cfg, start, actions).threads[tid].pc.AuthorizeReset? then None else Some(AuthFailed);
            JudgedAt(cfg, start, actions, m, tid, verdict)
    decreases |actions|
  {
    hide Exec, Sound;
    AtEnds(cfg, start, actions);
    m := 0;
    if actions != [] {
      var n := |actions| - 1;
      var s := Runs(cfg, start, actions[..n]);
      AtNext(cfg, start, actions, n);
      if actions[n].Run? && actions[n].tid == tid && tid in s.threads {
        m := n;
        Residency.RunsSound(cfg, start, actions[..n]);
        RefusedVerifyRecords(cfg, s.now, tid, s.threads[tid], s.daemon, s.draws, actions[n].env);
      } else {
        m := WasJudged(cfg, start, actions[..n], tid);
        assert actions[..n][..m] == actions[..m];
      }
    }
  }
}
