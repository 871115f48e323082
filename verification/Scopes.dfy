/** Scope keys of peers without a process id: while the down-counter stays above
    the process-id range, each is fresh and no grant ever matches it. */
module Scopes {
  import opened Base
  import opened VaultCaches
  import opened Service
  import opened Machine
  import Residency

  /** Session leaders are process ids, and process ids are bounded. */
  ghost predicate PidsBounded(cfg: Config)
  {
    forall pid: U32 :: cfg.leader(pid).Some? ==> cfg.leader(pid).value <= cfg.maxPid
  }

  predicate RealPeers(cfg: Config, actions: seq<Action>)
  {
    forall i | 0 <= i < |actions| :: RealPeer(cfg, actions[i])
  }

  predicate RealPeer(cfg: Config, a: Action)
  {
    a.Begin? && a.peer.Some? ==> a.peer.value <= cfg.maxPid
  }

  /** The keys drawn so far are exactly those above this number. */
  function Floor(draws: nat): int { U32_MAX - draws }

  /** A key that a thread has resolved and not yet used. */
  function Held(pc: Pc): Option<U32>
  {
    if pc.GateCheck? || pc.ApprovalGrant? then Some(pc.key) else None
  }

  ghost predicate HoldsDrawn(threads: map<Tid, Thread>, tid: Tid)
  {
    tid in threads && threads[tid].peer.None? && Held(threads[tid].pc).Some?
  }

  ghost predicate KeysApart(cfg: Config, grants: map<U32, Instant>, threads: map<Tid, Thread>, draws: nat)
  {
    && (forall key | key in grants :: key <= cfg.maxPid || key > Floor(draws))
    && (forall tid | tid in threads && threads[tid].peer.Some? && Held(threads[tid].pc).Some? ::
          Held(threads[tid].pc).value <= cfg.maxPid)
    && (forall tid | HoldsDrawn(threads, tid) ::
          Held(threads[tid].pc).value > Floor(draws) && Held(threads[tid].pc).value !in grants)
    && (forall t, u | HoldsDrawn(threads, t) && HoldsDrawn(threads, u) && t != u ::
          Held(threads[t].pc) != Held(threads[u].pc))
  }

  ghost predicate Inv(cfg: Config, s: Sys)
  {
    && Residency.Inv(s)
    && (forall tid | tid in s.threads && s.threads[tid].peer.Some? :: s.threads[tid].peer.value <= cfg.maxPid)
    && (s.draws + cfg.maxPid <= U32_MAX ==> KeysApart(cfg, s.daemon.svc.grants, s.threads, s.draws))
  }

  /** What a section may do to the grants, the counter and its own held key. */
  ghost predicate SectionScopes(cfg: Config, th: Thread, d: Daemon, draws: nat, o: Out)
  {
    && (o.draws == draws || (o.draws == draws + 1 && th.peer.None?))
    && (forall key | key in o.daemon.svc.grants :: key in d.svc.grants || Held(th.pc) == Some(key)
          || (key == ResolvedKey(cfg, th.peer, draws) && o.draws == DrawsAfter(th.peer, draws)))
    && (Held(o.pc).Some? ==>
          (Held(th.pc).None? && Held(o.pc).value == ResolvedKey(cfg, th.peer, draws)
           && o.draws == DrawsAfter(th.peer, draws) && o.daemon.svc.grants == d.svc.grants))
  }

  lemma GateScopes(cfg: Config, now: Instant, tid: Tid, th: Thread, d: Daemon, draws: nat)
    requires th.pc.GateTouch? || th.pc.GateState? || th.pc.GateResolve? || th.pc.GateCheck?
    ensures SectionScopes(cfg, th, d, draws, ExecGate(cfg, now, tid, th, d, draws))
  {
    hide ResolvedKey, DrawEvents;
  }

  lemma ApprovalScopes(cfg: Config, now: Instant, tid: Tid, th: Thread, d: Daemon, draws: nat, env: Env)
    requires IsApproval(th.pc)
    ensures SectionScopes(cfg, th, d, draws, ExecApproval(cfg, now, tid, th, d, draws, env))
  {
    hide ResolvedKey, DrawEvents;
  }

  lemma AgentScopes(cfg: Config, now: Instant, tid: Tid, th: Thread, d: Daemon, draws: nat, env: Env)
    requires IsAgent(th.pc) && Sound(d.svc)
    ensures SectionScopes(cfg, th, d, draws, ExecAgent(cfg, now, tid, th, d, draws, env))
  {
    hide Unlock;
    if th.pc.AgentUnlock? {
      UnlockSound(cfg.crypto, d, th.pc.password, env.unlock.(now := now));
    }
  }

  lemma LoginScopes(cfg: Config, now: Instant, tid: Tid, th: Thread, d: Daemon, draws: nat, env: Env)
    requires IsLogin(th.pc) && Sound(d.svc)
    ensures SectionScopes(cfg, th, d, draws, ExecLogin(cfg, now, tid, th, d, draws, env))
  {
    hide Unlock;
    if th.pc.UnlockRun? {
      UnlockSound(cfg.crypto, d, th.pc.password, env.unlock.(now := now));
    }
  }

  lemma AuthorizeScopes(cfg: Config, now: Instant, tid: Tid, th: Thread, d: Daemon, draws: nat, env: Env)
    requires IsAuthorize(th.pc) && Sound(d.svc)
    ensures SectionScopes(cfg, th, d, draws, ExecAuthorize(cfg, now, tid, th, d, draws, env))
  {
    hide Unlock;
    if th.pc.AuthorizeUnlock? {
      UnlockSound(cfg.crypto, d, th.pc.password, env.unlock.(now := now));
    }
  }

  lemma OtherScopes(cfg: Config, now: Instant, tid: Tid, th: Thread, d: Daemon, draws: nat, env: Env)
    requires !(th.pc.GateTouch? || th.pc.GateState? || th.pc.GateResolve? || th.pc.GateCheck?)
    requires !IsApproval(th.pc) && !IsAgent(th.pc) && !IsLogin(th.pc) && !IsAuthorize(th.pc)
    ensures SectionScopes(cfg, th, d, draws, Exec(cfg, now, tid, th, d, draws, env))
  {
  }

  lemma AnyScopes(cfg: Config, now: Instant, tid: Tid, th: Thread, d: Daemon, draws: nat, env: Env)
    requires Sound(d.svc)
    ensures SectionScopes(cfg, th, d, draws, Exec(cfg, now, tid, th, d, draws, env))
  {
    hide ExecGate, ExecApproval, ExecAgent, ExecLogin, ExecAuthorize, ExecSync, ExecOther, SectionScopes;
    if IsAgent(th.pc) {
      AgentScopes(cfg, now, tid, th, d, draws, env);
    } else if IsLogin(th.pc) {
      LoginScopes(cfg, now, tid, th, d, draws, env);
    } else if IsAuthorize(th.pc) {
      AuthorizeScopes(cfg, now, tid, th, d, draws, env);
    } else if IsApproval(th.pc) {
      ApprovalScopes(cfg, now, tid, th, d, draws, env);
    } else if th.pc.GateTouch? || th.pc.GateState? || th.pc.GateResolve? || th.pc.GateCheck? {
      GateScopes(cfg, now, tid, th, d, draws);
    } else {
      OtherScopes(cfg, now, tid, th, d, draws, env);
    }
  }

  /** Where the key of a section can come from. */
  lemma ResolvedApart(cfg: Config, peer: Option<U32>, draws: nat)
    requires PidsBounded(cfg) && draws <= U32_MAX && (peer.Some? ==> peer.value <= cfg.maxPid)
    ensures peer.Some? ==> ResolvedKey(cfg, peer, draws) <= cfg.maxPid && DrawsAfter(peer, draws) == draws
    ensures peer.None? ==> ResolvedKey(cfg, peer, draws) == Floor(draws) && DrawsAfter(peer, draws) == draws + 1
  {
  }

  lemma SectionKeepsApart(cfg: Config, s: Sys, tid: Tid, o: Out)
    requires KeysApart(cfg, s.daemon.svc.grants, s.threads, s.draws) && tid in s.threads && PidsBounded(cfg)
    requires s.threads[tid].peer.Some? ==> s.threads[tid].peer.value <= cfg.maxPid
    requires SectionScopes(cfg, s.threads[tid], s.daemon, s.draws, o)
    requires o.draws + cfg.maxPid <= U32_MAX
    ensures KeysApart(cfg, o.daemon.svc.grants, s.threads[tid := s.threads[tid].(pc := o.pc)], o.draws)
  {
    hide ResolvedKey, DrawsAfter, PidsBounded, Held;
    var th := s.threads[tid];
    var threads := s.threads[tid := th.(pc := o.pc)];
    ResolvedApart(cfg, th.peer, s.draws);
    forall t | HoldsDrawn(threads, t) && t != tid
      ensures HoldsDrawn(s.threads, t) && Held(threads[t].pc).value !in o.daemon.svc.grants
    {
      assert HoldsDrawn(s.threads, t);
      if Held(th.pc).Some? && th.peer.None? {
        assert HoldsDrawn(s.threads, tid);
      }
    }
  }

  lemma StepKeepsApart(cfg: Config, s: Sys, a: Action)
    requires Inv(cfg, s) && PidsBounded(cfg) && RealPeer(cfg, a)
    ensures Inv(cfg, Next(cfg, s, a))
  {
    hide Exec, KeysApart, Sound;
    Residency.StepSound(cfg, s, a);
    var t := Next(cfg, s, a);
    match a
    case Run(tid, env) =>
      if tid in s.threads {
        var o := Exec(cfg, s.now, tid, s.threads[tid], s.daemon, s.draws, env);
        AnyScopes(cfg, s.now, tid, s.threads[tid], s.daemon, s.draws, env);
        if t.draws + cfg.maxPid <= U32_MAX {
          SectionKeepsApart(cfg, s, tid, o);
        }
      }
    case Begin(tid, peer, pc) =>
      if t.draws + cfg.maxPid <= U32_MAX && tid !in s.threads && IsEntry(pc) {
        BeginKeepsApart(cfg, s.daemon.svc.grants, s.threads, s.draws, tid, Thread(peer, pc));
      }
    case AutoLockTick =>
      if t.draws + cfg.maxPid <= U32_MAX {
        FewerGrants(cfg, s.daemon.svc.grants, t.daemon.svc.grants, s.threads, s.draws);
      }
    case Restart(readable) =>
      NobodyHolds(cfg, t.threads, t.draws);
    case _ =>
  }

  lemma BeginKeepsApart(cfg: Config, grants: map<U32, Instant>, threads: map<Tid, Thread>, draws: nat,
                        tid: Tid, th: Thread)
    requires KeysApart(cfg, grants, threads, draws) && tid !in threads && IsEntry(th.pc)
    ensures KeysApart(cfg, grants, threads[tid := th], draws)
  {
    forall u | HoldsDrawn(threads[tid := th], u) ensures HoldsDrawn(threads, u) {}
  }

  lemma FewerGrants(cfg: Config, grants: map<U32, Instant>, fewer: map<U32, Instant>, threads: map<Tid, Thread>,
                    draws: nat)
    requires KeysApart(cfg, grants, threads, draws) && fewer.Keys <= grants.Keys
    ensures KeysApart(cfg, fewer, threads, draws)
  {
  }

  lemma NobodyHolds(cfg: Config, threads: map<Tid, Thread>, draws: nat)
    requires forall tid | tid in threads :: threads[tid].pc.Done?
    ensures KeysApart(cfg, map[], threads, draws)
  {
  }

  lemma {:induction false} RunsKeepApart(cfg: Config, s: Sys, actions: seq<Action>)
    requires Inv(cfg, s) && PidsBounded(cfg) && RealPeers(cfg, actions)
    ensures Inv(cfg, Runs(cfg, s, actions))
    decreases |actions|
  {
    if actions != [] {
      StepKeepsApart(cfg, s, actions[0]);
      RunsKeepApart(cfg, Next(cfg, s, actions[0]), actions[1..]);
    }
  }

  /** A request from an unresolvable peer is never pre-approved while the
      counter is above the process-id range: the key it checks is not in the
      cache at all, so it always goes on to the approval prompts. */
  lemma UnresolvedNeverPreApproved(cfg: Config, store: Store, prompt: PromptMethod, now: Instant,
                                   actions: seq<Action>, tid: Tid, env: Env)
    requires PidsBounded(cfg) && RealPeers(cfg, actions)
    requires var s := Runs(cfg, Boot(cfg, store, prompt, now), actions);
             && tid in s.threads && s.threads[tid].peer.None? && s.threads[tid].pc.GateCheck?
             && s.draws + cfg.maxPid <= U32_MAX
    ensures var s := Runs(cfg, Boot(cfg, store, prompt, now), actions);
            && s.threads[tid].pc.key !in s.daemon.svc.grants
            && Next(cfg, s, Run(tid, env)).threads[tid].pc == ApprovalEnter(s.threads[tid].pc.op)
  {
    Residency.KeyResidency(cfg, store, prompt, now, []);
    RunsKeepApart(cfg, Boot(cfg, store, prompt, now), actions);
    var s := Runs(cfg, Boot(cfg, store, prompt, now), actions);
    assert HoldsDrawn(s.threads, tid);
  }

  /** The bound is tight: for every process id there is a draw, the first one
      past the bound for the largest id, that yields that id as a key. */
  lemma CounterReachesEveryPid(pid: U32)
    ensures DrawnKey(U32_MAX - pid) == pid
    ensures forall draws: nat | draws < U32_MAX - pid :: DrawnKey(draws) > pid
  {
  }
}
