/** The counter behind the scope keys of unresolvable peers: which keys it gives
    over a run, and what happens when it reaches the process ids. */
module Counters {
  import opened Base
  import opened VaultCaches
  import opened Service
  import opened Machine
  import opened Interleavings
  import opened Witnesses
  import opened Scopes
  import Residency

  // --- The log numbers the draws ---

  /** Draws since the process started, read off the log. */
  function Draws(log: seq<Event>): nat
  {
    if log == [] then 0
    else
      var n := Draws(log[..|log| - 1]);
      match log[|log| - 1]
      case Restarted => 0
      case Drew(_, _) => n + 1
      case _ => n
  }

  /** How many of the events are draws. */
  function DrewCount(log: seq<Event>): nat
  {
    if log == [] then 0 else DrewCount(log[..|log| - 1]) + if log[|log| - 1].Drew? then 1 else 0
  }

  ghost predicate Numbered(log: seq<Event>)
  {
    forall i | 0 <= i < |log| && log[i].Drew? :: log[i].key == DrawnKey(Draws(log[..i]))
  }

  predicate Quiet(events: seq<Event>)
  {
    forall i | 0 <= i < |events| :: !events[i].Drew? && !events[i].Restarted?
  }

  lemma {:induction false} AppendQuiet(log: seq<Event>, events: seq<Event>)
    requires Numbered(log) && Quiet(events)
    ensures Numbered(log + events) && Draws(log + events) == Draws(log)
  {
    if events == [] {
      assert log + events == log;
    } else {
      var last := |events| - 1;
      AppendQuiet(log, events[..last]);
      AppendOne(log + events[..last], events[last]);
      assert log + events == log + events[..last] + [events[last]];
    }
  }

  lemma AppendOne(log: seq<Event>, e: Event)
    requires Numbered(log) && (e.Drew? ==> e.key == DrawnKey(Draws(log)))
    ensures Numbered(log + [e])
    ensures Draws(log + [e]) == if e.Restarted? then 0 else if e.Drew? then Draws(log) + 1 else Draws(log)
  {
    hide DrawnKey;
    var more := log + [e];
    assert more[..|log|] == log;
    forall i | 0 <= i < |more| && more[i].Drew? ensures more[i].key == DrawnKey(Draws(more[..i])) {
      if i < |log| {
        assert more[..i] == log[..i];
      }
    }
  }

  // --- A section draws at most once ---

  lemma UnlockEventsQuiet(before: Daemon, o: Outcome, now: Instant)
    ensures Quiet(UnlockEvents(before, o, now))
  {
  }

  /** Where the draw of a section stands among its events, if it draws. */
  predicate DrawsAt(cfg: Config, tid: Tid, peer: Option<U32>, draws: nat, o: Out, pre: seq<Event>, post: seq<Event>)
  {
    && Quiet(pre) && Quiet(post)
    && ((o.draws == draws && o.events == pre + post)
        || (o.draws == DrawsAfter(peer, draws) && o.events == pre + DrawEvents(cfg, tid, peer, draws) + post))
  }

  lemma GrantDraws(cfg: Config, now: Instant, tid: Tid, th: Thread, d: Daemon, draws: nat, files: DiskIo, pc: Pc,
                   first: seq<Event>)
    ensures var o := UnlockAndGrant(cfg, now, tid, th, d, draws, files, pc, first);
            var pre := first + [Authenticated(tid), ResetFailures];
            var post := [GrantedTo(tid, ResolvedKey(cfg, th.peer, draws), now)];
            Quiet(first) ==> DrawsAt(cfg, tid, th.peer, draws, o, pre, post)
  {
    hide ResolvedKey, DrawEvents, DrawsAfter;
  }

  lemma UnlockDraws(cfg: Config, now: Instant, tid: Tid, th: Thread, d: Daemon, draws: nat, env: Env)
    returns (pre: seq<Event>, post: seq<Event>)
    requires AtUnlock(th.pc)
    ensures DrawsAt(cfg, tid, th.peer, draws, Exec(cfg, now, tid, th, d, draws, env), pre, post)
  {
    hide Unlock, UnlockEvents, ResolvedKey, DrawEvents, DrawsAfter, UnlockAndGrant;
    var unlock := Unlock(cfg.crypto, d, th.pc.password, env.unlock.(now := now));
    var first := UnlockEvents(d, unlock, now);
    UnlockEventsQuiet(d, unlock, now);
    var o := Exec(cfg, now, tid, th, d, draws, env);
    if unlock.result.Ok? && !th.pc.AuthorizeUnlock? {
      var pc := if th.pc.UnlockRun? then Done(Answered)
                else if th.pc.op.AgentList? then AgentRead else GateResolve(th.pc.op);
      GrantDraws(cfg, now, tid, th, unlock.after, draws, env.files, pc, first);
      pre, post := first + [Authenticated(tid), ResetFailures], [GrantedTo(tid, ResolvedKey(cfg, th.peer, draws), now)];
    } else {
      pre, post := o.events, [];
    }
  }

  lemma ApprovalQuiet(cfg: Config, now: Instant, tid: Tid, th: Thread, d: Daemon, draws: nat, env: Env)
    requires IsApproval(th.pc) && !th.pc.ApprovalResolve?
    ensures var o := ExecApproval(cfg, now, tid, th, d, draws, env); o.draws == draws && Quiet(o.events)
  {
  }

  lemma OtherQuiet(cfg: Config, now: Instant, tid: Tid, th: Thread, d: Daemon, draws: nat, env: Env)
    requires !AtUnlock(th.pc) && !th.pc.GateResolve? && !IsApproval(th.pc) && !th.pc.AuthorizeGrant?
    ensures var o := Exec(cfg, now, tid, th, d, draws, env); o.draws == draws && Quiet(o.events)
  {
    hide ExecApproval;
  }

  lemma SectionDraws(cfg: Config, now: Instant, tid: Tid, th: Thread, d: Daemon, draws: nat, env: Env)
    returns (pre: seq<Event>, post: seq<Event>)
    ensures DrawsAt(cfg, tid, th.peer, draws, Exec(cfg, now, tid, th, d, draws, env), pre, post)
  {
    hide ResolvedKey, DrawEvents, DrawsAfter, ExecAgent, ExecLogin, ExecSync, ExecOther;
    if AtUnlock(th.pc) {
      pre, post := UnlockDraws(cfg, now, tid, th, d, draws, env);
    } else if th.pc.GateResolve? || th.pc.ApprovalResolve? {
      pre, post := [], [];
    } else if th.pc.AuthorizeGrant? {
      pre, post := [], [GrantedTo(tid, ResolvedKey(cfg, th.peer, draws), now)];
    } else {
      if IsApproval(th.pc) {
        ApprovalQuiet(cfg, now, tid, th, d, draws, env);
      } else {
        OtherQuiet(cfg, now, tid, th, d, draws, env);
      }
      pre, post := Exec(cfg, now, tid, th, d, draws, env).events, [];
    }
  }

  // --- Over runs ---

  ghost predicate InStep(s: Sys) { Numbered(s.log) && Draws(s.log) == s.draws }

  lemma AppendSection(cfg: Config, tid: Tid, peer: Option<U32>, log: seq<Event>, o: Out, pre: seq<Event>,
                      post: seq<Event>)
    requires Numbered(log) && DrawsAt(cfg, tid, peer, Draws(log), o, pre, post)
    ensures Numbered(log + o.events) && Draws(log + o.events) == o.draws
  {
    hide DrawnKey, Numbered, Quiet, Draws;
    var n := Draws(log);
    AppendQuiet(log, pre);
    if o.draws == n {
      AppendQuiet(log + pre, post);
      assert log + o.events == log + pre + post;
    } else {
      AppendOne(log + pre, Drew(tid, DrawnKey(n)));
      AppendQuiet(log + pre + [Drew(tid, DrawnKey(n))], post);
      assert log + o.events == log + pre + [Drew(tid, DrawnKey(n))] + post;
    }
  }

  lemma StepInStep(cfg: Config, s: Sys, a: Action)
    requires InStep(s)
    ensures InStep(Next(cfg, s, a))
  {
    hide Exec, Start, Draws, Numbered, DrawsAt;
    match a
    case Run(tid, env) =>
      if tid in s.threads {
        var th := s.threads[tid];
        var pre, post := SectionDraws(cfg, s.now, tid, th, s.daemon, s.draws, env);
        AppendSection(cfg, tid, th.peer, s.log, Exec(cfg, s.now, tid, th, s.daemon, s.draws, env), pre, post);
      }
    case AutoLockTick => AppendQuiet(s.log, AutoLock(s.now, s.daemon, s.draws).events);
    case Restart(_) => AppendOne(s.log, Restarted);
    case _ =>
  }

  lemma {:induction false} RunsInStep(cfg: Config, s: Sys, actions: seq<Action>)
    requires InStep(s)
    ensures InStep(Runs(cfg, s, actions))
    decreases |actions|
  {
    hide Next, InStep;
    if actions != [] {
      StepInStep(cfg, s, actions[0]);
      RunsInStep(cfg, Next(cfg, s, actions[0]), actions[1..]);
    }
  }

  /** Without a restart the numbers only grow, one by one. */
  lemma {:induction false} DrawsAdd(log: seq<Event>, i: nat, j: nat)
    requires i <= j <= |log| && forall k | i <= k < j :: !log[k].Restarted?
    ensures Draws(log[..j]) == Draws(log[..i]) + DrewCount(log[i..j])
    decreases j - i
  {
    if i < j {
      DrawsAdd(log, i, j - 1);
      assert log[..j][..j - 1] == log[..j - 1];
      assert log[i..j][..j - 1 - i] == log[i..j - 1];
    }
  }

  lemma {:induction false} FirstCounts(events: seq<Event>)
    requires events != [] && events[0].Drew?
    ensures DrewCount(events) >= 1
  {
    if |events| > 1 {
      FirstCounts(events[..|events| - 1]);
    }
  }

  lemma SameKeyIff(a: nat, b: nat)
    requires a <= b
    ensures DrawnKey(a) == DrawnKey(b) <==> (b - a) % 0x1_0000_0000 == 0
  {
    var m: nat := 0x1_0000_0000;
    var x, y := U32_MAX - a, U32_MAX - b;
    assert x == m * (x / m) + x % m && y == m * (y / m) + y % m;
    assert b - a == m * ((b - a) / m) + (b - a) % m;
    if x % m == y % m {
      assert b - a == m * (x / m - y / m);
      Multiple(x / m - y / m);
    }
    if (b - a) % m == 0 {
      assert x == y + m * ((b - a) / m);
      Shifted(y, (b - a) / m);
    }
  }

  lemma Multiple(k: int)
    ensures 0x1_0000_0000 * k % 0x1_0000_0000 == 0
  {
  }

  lemma Shifted(y: int, k: int)
    ensures (y + 0x1_0000_0000 * k) % 0x1_0000_0000 == y % 0x1_0000_0000
  {
  }

  /** Two draws of one process give the same key exactly when the number of draws
      from the one to the other is a multiple of 2^32: any 2^32 draws in a row
      give distinct keys, whichever requests and threads they come from. */
  lemma KeysRepeatIff(cfg: Config, store: Store, prompt: PromptMethod, now: Instant, actions: seq<Action>,
                      i: nat, j: nat)
    requires var log := Runs(cfg, Boot(cfg, store, prompt, now), actions).log;
             && i < j < |log| && log[i].Drew? && log[j].Drew?
             && forall k | i < k < j :: !log[k].Restarted?
    ensures var log := Runs(cfg, Boot(cfg, store, prompt, now), actions).log;
            && DrewCount(log[i..j]) >= 1
            && (log[i].key == log[j].key <==> DrewCount(log[i..j]) % 0x1_0000_0000 == 0)
  {
    hide Runs, Boot, DrawnKey, Draws, DrewCount;
    var log := Runs(cfg, Boot(cfg, store, prompt, now), actions).log;
    BootInStep(cfg, store, prompt, now);
    RunsInStep(cfg, Boot(cfg, store, prompt, now), actions);
    DrawsAdd(log, i, j);
    FirstCounts(log[i..j]);
    SameKeyIff(Draws(log[..i]), Draws(log[..j]));
  }

  lemma BootInStep(cfg: Config, store: Store, prompt: PromptMethod, now: Instant)
    ensures InStep(Boot(cfg, store, prompt, now))
  {
  }

  // --- At the bound ---

  /** A request of a peer that cannot be resolved, up to the check of its key. */
  function RequestUpToCheck(tid: Tid, env: Env): seq<Action>
  {
    [Begin(tid, None, GateTouch(VaultList)), Run(tid, env), Run(tid, env), Run(tid, env)]
  }

  /** No time has passed, the vault is unlocked with the same grants, nobody has
      authenticated, and n more keys are drawn. */
  ghost predicate Drawn(s: Sys, t: Sys, n: nat)
  {
    && t.now == s.now && t.draws == s.draws + n
    && t.daemon.svc == s.daemon.svc.(lastActivity := t.daemon.svc.lastActivity)
    && |s.log| <= |t.log| && t.log[..|s.log|] == s.log
    && forall i | |s.log| <= i < |t.log| :: !t.log[i].Authenticated?
  }

  ghost predicate Below(threads: map<Tid, Thread>, first: Tid) { forall tid | tid in threads :: tid < first }

  lemma DrawnAdds(r: Sys, s: Sys, t: Sys, m: nat, n: nat)
    requires Drawn(r, s, m) && Drawn(s, t, n)
    ensures Drawn(r, t, m + n)
  {
    assert t.log[..|r.log|] == t.log[..|s.log|][..|r.log|];
  }

  lemma TouchRuns(cfg: Config, s: Sys, tid: Tid, env: Env)
    requires tid in s.threads && s.threads[tid].pc.GateTouch?
    ensures var th := s.threads[tid];
            var t := Next(cfg, s, Run(tid, env));
            t.threads == s.threads[tid := th.(pc := GateState(th.pc.op))] && Drawn(s, t, 0)
  {
  }

  lemma StateRuns(cfg: Config, s: Sys, tid: Tid, env: Env)
    requires tid in s.threads && s.threads[tid].pc.GateState? && s.daemon.svc.status.Unlocked?
    ensures var th := s.threads[tid];
            var t := Next(cfg, s, Run(tid, env));
            t.threads == s.threads[tid := th.(pc := GateResolve(th.pc.op))] && Drawn(s, t, 0)
  {
  }

  lemma ResolveRuns(cfg: Config, s: Sys, tid: Tid, env: Env)
    requires tid in s.threads && s.threads[tid].pc.GateResolve? && s.threads[tid].peer.None?
    ensures var th := s.threads[tid];
            var t := Next(cfg, s, Run(tid, env));
            t.threads == s.threads[tid := th.(pc := GateCheck(th.pc.op, DrawnKey(s.draws)))] && Drawn(s, t, 1)
  {
  }

  lemma DrawOnce(cfg: Config, s: Sys, tid: Tid, env: Env)
    requires tid !in s.threads && s.daemon.svc.status.Unlocked?
    ensures var t := Runs(cfg, s, RequestUpToCheck(tid, env));
            Drawn(s, t, 1) && t.threads == s.threads[tid := Thread(None, GateCheck(VaultList, DrawnKey(s.draws)))]
  {
    hide Next, DrawnKey;
    var acts := RequestUpToCheck(tid, env);
    BeginRuns(cfg, s, tid, None, GateTouch(VaultList));
    var s1 := Next(cfg, s, acts[0]);
    TouchRuns(cfg, s1, tid, env);
    var s2 := Next(cfg, s1, acts[1]);
    StateRuns(cfg, s2, tid, env);
    var s3 := Next(cfg, s2, acts[2]);
    ResolveRuns(cfg, s3, tid, env);
    var s4 := Next(cfg, s3, acts[3]);
    DrawnAdds(s1, s2, s3, 0, 0);
    DrawnAdds(s1, s3, s4, 0, 1);
    RunsSteps(cfg, s, acts, [s, s1, s2, s3, s4]);
  }

  lemma {:induction false} DrawMany(cfg: Config, s: Sys, first: Tid, env: Env, n: nat) returns (actions: seq<Action>)
    requires Below(s.threads, first) && s.daemon.svc.status.Unlocked?
    ensures RealPeers(cfg, actions)
    ensures var t := Runs(cfg, s, actions); Drawn(s, t, n) && Below(t.threads, first + n)
    decreases n
  {
    hide Next, DrawnKey;
    actions := [];
    if n > 0 {
      var t := Runs(cfg, s, RequestUpToCheck(first, env));
      DrawOnce(cfg, s, first, env);
      var rest := DrawMany(cfg, t, first + 1, env, n - 1);
      RunsConcat(cfg, s, RequestUpToCheck(first, env), rest);
      DrawnAdds(s, t, Runs(cfg, t, rest), 1, n - 1);
      actions := RequestUpToCheck(first, env) + rest;
    }
  }

  lemma {:induction false} SomeTidAbove(tids: set<Tid>) returns (first: Tid)
    ensures forall tid | tid in tids :: tid < first
  {
    first := 0;
    if tids != {} {
      var tid :| tid in tids;
      var rest := SomeTidAbove(tids - {tid});
      first := Max(rest, tid + 1);
      forall t | t in tids ensures t < first {
        assert t == tid || t in tids - {tid};
      }
    }
  }

  lemma LowTid(threads: map<Tid, Thread>) returns (first: Tid)
    ensures Below(threads, first)
  {
    first := SomeTidAbove(threads.Keys);
  }

  lemma AboveAll(threads: map<Tid, Thread>, first: Tid)
    requires Below(threads, first)
    ensures first !in threads
  {
  }

  lemma KeyAt(key: U32)
    ensures DrawnKey(U32_MAX - key) == key
  {
  }

  lemma CheckFinds(cfg: Config, s: Sys, tid: Tid, env: Env)
    requires tid in s.threads && s.threads[tid].pc.GateCheck?
    requires IsApproved(s.daemon.svc.grants, s.threads[tid].pc.key, s.now)
    ensures var th := s.threads[tid];
            var t := Next(cfg, s, Run(tid, env));
            t.threads == s.threads[tid := th.(pc := Read(th.pc.op))] && Drawn(s, t, 0)
  {
  }

  lemma ReadReleases(cfg: Config, s: Sys, tid: Tid, env: Env)
    requires tid in s.threads && s.threads[tid].pc == Read(VaultList) && s.daemon.svc.status.Unlocked?
    requires Sound(s.daemon.svc)
    ensures var t := Next(cfg, s, Run(tid, env)); Drawn(s, t, 0) && t.log == s.log + [Released(tid, VaultList)]
  {
  }

  /** Wherever a grant is live and its key not yet passed by the counter, requests
      of unresolvable peers can draw the counter down to it; the one that draws it
      is then served, and neither it nor any other has authenticated. */
  lemma CounterFindsGrant(cfg: Config, s: Sys, key: U32, env: Env) returns (actions: seq<Action>, tid: Tid)
    requires Sound(s.daemon.svc) && s.daemon.svc.status.Unlocked? && IsApproved(s.daemon.svc.grants, key, s.now)
    requires s.draws <= U32_MAX - key
    ensures RealPeers(cfg, actions) && tid !in s.threads
    ensures var t := Runs(cfg, s, actions);
            && t.threads.Keys >= {tid} && t.threads[tid] == Thread(None, GateCheck(VaultList, key))
            && Drawn(s, t, U32_MAX - key - s.draws + 1)
            && var served := Runs(cfg, t, [Run(tid, env), Run(tid, env)]);
               && Drawn(s, served, U32_MAX - key - s.draws + 1)
               && |served.log| > |s.log| && served.log[|served.log| - 1] == Released(tid, VaultList)
  {
    hide Next, Sound, DrawnKey, IsApproved, Below;
    KeyAt(key);
    var first := LowTid(s.threads);
    var n := U32_MAX - key - s.draws;
    var before := DrawMany(cfg, s, first, env, n);
    tid := first + n;
    var r := Runs(cfg, s, before);
    AboveAll(r.threads, tid);
    AboveAll(s.threads, first);
    DrawOnce(cfg, r, tid, env);
    var t := Runs(cfg, r, RequestUpToCheck(tid, env));
    RunsConcat(cfg, s, before, RequestUpToCheck(tid, env));
    actions := before + RequestUpToCheck(tid, env);
    DrawnAdds(s, r, t, n, 1);
    CheckFinds(cfg, t, tid, env);
    var u := Next(cfg, t, Run(tid, env));
    DrawnAdds(s, t, u, n + 1, 0);
    SoundSame(s.daemon.svc, u.daemon.svc);
    ReadReleases(cfg, u, tid, env);
    var served := Next(cfg, u, Run(tid, env));
    RunsSteps(cfg, t, [Run(tid, env), Run(tid, env)], [t, u, served]);
    DrawnAdds(s, u, served, n + 1, 0);
  }

  lemma SoundSame(s: Svc, t: Svc)
    requires Sound(s) && t == s.(lastActivity := t.lastActivity)
    ensures Sound(t)
  {
  }

  // --- A concrete run ---

  /** The log holds no authentication but this thread's. */
  ghost predicate OnlyAuthenticated(log: seq<Event>, tid: Tid)
  {
    forall e | e in log && e.Authenticated? :: e.tid == tid
  }

  lemma OthersNever(tid: Tid, s: Sys, t: Sys, n: nat, other: Tid)
    requires OnlyAuthenticated(s.log, tid) && Drawn(s, t, n) && other != tid
    ensures Authenticated(other) !in t.log
  {
  }

  lemma UnlockRunGrants(s: Sys, tid: Tid, env: Env)
    requires tid in s.threads && s.threads[tid] == Thread(Some(100), UnlockRun(s.now, "p"))
    requires Unlock(TellingCrypto(), s.daemon, "p", env.unlock.(now := s.now)).result.Ok?
    requires s.log == []
    ensures var t := Next(PlainConfig(), s, Run(tid, env));
            && t.now == s.now && t.draws == s.draws && IsApproved(t.daemon.svc.grants, 100, t.now)
            && OnlyAuthenticated(t.log, tid)
  {
    hide Unlock, UnlockEvents;
    var o := Unlock(TellingCrypto(), s.daemon, "p", env.unlock.(now := s.now));
    UnlockEventsAreNotes(s.daemon, o, s.now);
  }

  /** An unlock from process 100 grants that process its approval. */
  lemma UnlockActionsGrant(s: Sys, tid: Tid, env: Env)
    requires Openable(s) && tid !in s.threads && s.log == [] && Helpful(env.unlock)
    ensures var t := Runs(PlainConfig(), s, UnlockActions(tid, env));
            && t.now == s.now && t.draws == s.draws && IsApproved(t.daemon.svc.grants, 100, t.now)
            && OnlyAuthenticated(t.log, tid)
  {
    hide Next, Unlock, Openable, Helpful, PlainConfig, OnlyAuthenticated;
    var cfg := PlainConfig();
    var acts := UnlockActions(tid, env);
    BeginRuns(cfg, s, tid, Some(100), UnlockCheck(Some("p")));
    var s1 := Next(cfg, s, acts[0]);
    OpenableSame(s, s1);
    UnlockCheckRuns(s1, tid, env);
    var s2 := Next(cfg, s1, acts[1]);
    OpenableSame(s1, s2);
    OpenableUnlocks(s2, env.unlock);
    UnlockRunGrants(s2, tid, env);
    RunsSteps(cfg, s, acts, [s, s1, s2, Next(cfg, s2, acts[2])]);
  }

  lemma OpenableUnlocks(s: Sys, io: UnlockInputs)
    requires Openable(s) && Helpful(io)
    ensures Unlock(TellingCrypto(), s.daemon, "p", io.(now := s.now)).result.Ok?
  {
    hide Unlock;
    PlainUnlockWrites(s.daemon, io.(now := s.now));
  }

  lemma UnlockPeersReal(tid: Tid, env: Env, rest: seq<Action>)
    requires RealPeers(PlainConfig(), rest)
    ensures RealPeers(PlainConfig(), UnlockActions(tid, env) + rest)
  {
  }

  lemma PlainPids()
    ensures PidsBounded(PlainConfig()) && PlainConfig().maxPid == 100 && Helpful(NoHelp.unlock)
  {
  }

  /** The bound of UnresolvedNeverPreApproved is tight. A process with the largest
      id unlocks the vault; unresolvable peers draw the counter down; and at the
      first draw past the bound one of them is served on that process's grant. */
  lemma BoundIsTight() returns (store: Store, actions: seq<Action>, tid: Tid)
    ensures PidsBounded(PlainConfig()) && RealPeers(PlainConfig(), actions)
    ensures var cfg := PlainConfig();
            var s := Runs(cfg, Boot(cfg, store, Auto, 0), actions);
            && tid in s.threads && s.threads[tid].peer.None? && s.threads[tid].pc.GateCheck?
            && s.draws + cfg.maxPid == U32_MAX + 1
            && s.threads[tid].pc.key in s.daemon.svc.grants
            && var log := Runs(cfg, s, [Run(tid, NoHelp), Run(tid, NoHelp)]).log;
               log != [] && log[|log| - 1] == Released(tid, VaultList) && Authenticated(tid) !in log
  {
    hide Next, Boot, UnlockActions, Sound, OnlyAuthenticated, PlainConfig, PidsBounded, Helpful;
    var cfg := PlainConfig();
    PlainPids();
    store := Store(File.Holds(LoginState("a", "b")), Missing, None, None);
    var boot := Boot(cfg, store, Auto, 0);
    BootLocked(store);
    var first := UnlockActions(0, NoHelp);
    UnlockActionsOpen(boot, 0, NoHelp);
    UnlockActionsGrant(boot, 0, NoHelp);
    var s := Runs(cfg, boot, first);
    Residency.KeyResidency(cfg, store, Auto, 0, first);
    var rest;
    rest, tid := CounterFindsGrant(cfg, s, 100, NoHelp);
    RunsConcat(cfg, boot, first, rest);
    actions := first + rest;
    UnlockPeersReal(0, NoHelp, rest);
    var t := Runs(cfg, s, rest);
    OthersNever(0, s, Runs(cfg, t, [Run(tid, NoHelp), Run(tid, NoHelp)]), U32_MAX - 100 + 1, tid);
  }
}
