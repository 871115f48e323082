/** The states a run goes through, and which action wrote which event. */
module Histories {
  import opened Base
  import opened VaultCaches
  import opened Service
  import opened Machine

  /** The state before action m of a run. */
  function At(cfg: Config, start: Sys, actions: seq<Action>, m: nat): Sys
    requires m <= |actions|
  {
    Runs(cfg, start, actions[..m])
  }

  lemma AtNext(cfg: Config, start: Sys, actions: seq<Action>, m: nat)
    requires m < |actions|
    ensures At(cfg, start, actions, m + 1) == Next(cfg, At(cfg, start, actions, m), actions[m])
  {
    hide Next;
    assert actions[..m + 1] == actions[..m] + [actions[m]];
    RunsSnoc(cfg, start, actions[..m], actions[m]);
  }

  lemma AtEnds(cfg: Config, start: Sys, actions: seq<Action>)
    ensures At(cfg, start, actions, 0) == start
    ensures At(cfg, start, actions, |actions|) == Runs(cfg, start, actions)
  {
    assert actions[..|actions|] == actions;
  }

  /** Later states have longer logs, later clocks and the same requests. */
  lemma {:induction false} AtGrows(cfg: Config, start: Sys, actions: seq<Action>, m: nat, n: nat)
    requires m <= n <= |actions|
    ensures At(cfg, start, actions, m).log <= At(cfg, start, actions, n).log
    ensures At(cfg, start, actions, m).now <= At(cfg, start, actions, n).now
    ensures var s, t := At(cfg, start, actions, m), At(cfg, start, actions, n);
            forall tid | tid in s.threads :: tid in t.threads && t.threads[tid].peer == s.threads[tid].peer
    decreases n - m
  {
    hide Next, At;
    if m < n {
      AtGrows(cfg, start, actions, m, n - 1);
      AtNext(cfg, start, actions, n - 1);
      StepFrame(cfg, At(cfg, start, actions, n - 1), actions[n - 1]);
    }
  }

  /** Event p of the log was written by action m. */
  ghost predicate Wrote(cfg: Config, start: Sys, actions: seq<Action>, m: nat, p: nat)
  {
    m < |actions| && |At(cfg, start, actions, m).log| <= p < |At(cfg, start, actions, m + 1).log|
  }

  lemma {:induction false} WrittenBySome(cfg: Config, start: Sys, actions: seq<Action>, n: nat, p: nat) returns (m: nat)
    requires n <= |actions| && |start.log| <= p < |At(cfg, start, actions, n).log|
    ensures m < n && Wrote(cfg, start, actions, m, p)
    decreases n
  {
    hide At;
    AtEnds(cfg, start, actions);
    if p < |At(cfg, start, actions, n - 1).log| {
      m := WrittenBySome(cfg, start, actions, n - 1, p);
    } else {
      m := n - 1;
    }
  }

  /** The action that wrote an event of a run's log, and what the log was around it. */
  lemma Writer(cfg: Config, start: Sys, actions: seq<Action>, p: nat) returns (m: nat)
    requires |start.log| <= p < |Runs(cfg, start, actions).log|
    ensures Wrote(cfg, start, actions, m, p)
    ensures var log := Runs(cfg, start, actions).log;
            && At(cfg, start, actions, m).log <= log && At(cfg, start, actions, m + 1).log <= log
            && At(cfg, start, actions, m + 1) == Next(cfg, At(cfg, start, actions, m), actions[m])
  {
    hide Next, At;
    AtEnds(cfg, start, actions);
    m := WrittenBySome(cfg, start, actions, |actions|, p);
    AtNext(cfg, start, actions, m);
    AtGrows(cfg, start, actions, m, |actions|);
    AtGrows(cfg, start, actions, m + 1, |actions|);
  }

  /** Of two events, the earlier one was not written by a later action. */
  lemma WritersOrdered(cfg: Config, start: Sys, actions: seq<Action>, m: nat, p: nat, n: nat, q: nat)
    requires Wrote(cfg, start, actions, m, p) && Wrote(cfg, start, actions, n, q) && p <= q
    ensures m <= n
  {
    hide At;
    if n < m {
      AtGrows(cfg, start, actions, n + 1, m);
    }
  }
}
