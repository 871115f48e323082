/** Gated release: no gated request reads plaintext out of the SDK unless the
    vault is unlocked at that moment and, earlier in the same request, its scope
    held a live grant or the user authenticated. */
module Release {
  import opened Base
  import opened VaultCaches
  import opened Service
  import opened Machine
  import opened Grants
  import opened Histories
  import opened Authentications
  import Residency

  // --- What a request must show ---

  /** The key is one that this request's peer resolves to. */
  ghost predicate KeyFor(cfg: Config, log: seq<Event>, tid: Tid, peer: Option<U32>, key: U32)
  {
    match peer
    case Some(pid) => key == (match cfg.leader(pid) case Some(leader) => leader case None => pid)
    case None => Drew(tid, key) in log
  }

  /** At event j this request found its own scope key live, by the log. */
  ghost predicate FoundLive(cfg: Config, log: seq<Event>, j: nat, tid: Tid, peer: Option<U32>)
    requires j < |log|
  {
    && log[j].Checked? && log[j].tid == tid
    && KeyFor(cfg, log[..j], tid, peer, log[j].key)
    && LiveAt(log[..j], log[j].key, log[j].at)
  }

  ghost predicate Evidence(cfg: Config, log: seq<Event>, tid: Tid, peer: Option<U32>)
  {
    Authenticated(tid) in log || exists j | 0 <= j < |log| :: FoundLive(cfg, log, j, tid, peer)
  }

  /** What must already be in the log when a request stands at this point. */
  ghost predicate PcOk(cfg: Config, log: seq<Event>, tid: Tid, th: Thread)
  {
    match th.pc
    case GateCheck(_, key) => KeyFor(cfg, log, tid, th.peer, key)
    case ApprovalResolve(_) => Authenticated(tid) in log
    case ApprovalGrant(_, key) => Authenticated(tid) in log && KeyFor(cfg, log, tid, th.peer, key)
    case Read(_) => Evidence(cfg, log, tid, th.peer)
    case AuthorizeReset => Authenticated(tid) in log
    case AuthorizeGrant => Authenticated(tid) in log
    case _ => true
  }

  /** Event i, if a grant or a release, is backed by the events before it. */
  ghost predicate Backed(cfg: Config, log: seq<Event>, i: nat, tid: Tid, peer: Option<U32>)
    requires i < |log|
  {
    && (log[i].GrantedTo? ==> Authenticated(tid) in log[..i] && KeyFor(cfg, log[..i], tid, peer, log[i].key))
    && (log[i].Released? ==> Evidence(cfg, log[..i], tid, peer))
  }

  ghost predicate EventOk(cfg: Config, threads: map<Tid, Thread>, log: seq<Event>, i: nat)
    requires i < |log|
  {
    log[i].GrantedTo? || log[i].Released? ==>
      log[i].tid in threads && Backed(cfg, log, i, log[i].tid, threads[log[i].tid].peer)
  }

  // --- Appending keeps what was shown ---

  lemma EvidenceGrows(cfg: Config, log: seq<Event>, es: seq<Event>, tid: Tid, peer: Option<U32>)
    requires Evidence(cfg, log, tid, peer)
    ensures Evidence(cfg, log + es, tid, peer)
  {
    if Authenticated(tid) !in log {
      var j :| 0 <= j < |log| && FoundLive(cfg, log, j, tid, peer);
      assert (log + es)[..j] == log[..j];
      assert FoundLive(cfg, log + es, j, tid, peer);
    }
  }

  lemma PcOkGrows(cfg: Config, log: seq<Event>, es: seq<Event>, tid: Tid, th: Thread)
    requires PcOk(cfg, log, tid, th)
    ensures PcOk(cfg, log + es, tid, th)
  {
    if th.pc.Read? {
      EvidenceGrows(cfg, log, es, tid, th.peer);
    }
  }

  /** The new log is in order when every appended grant or release is this
      thread's and is backed by what precedes it. */
  ghost predicate AppendOk(cfg: Config, log: seq<Event>, es: seq<Event>, tid: Tid, peer: Option<U32>)
  {
    forall i | 0 <= i < |es| && (es[i].GrantedTo? || es[i].Released?) ::
      es[i].tid == tid && Backed(cfg, log + es, |log| + i, tid, peer)
  }

  lemma LogGrows(cfg: Config, threads: map<Tid, Thread>, log: seq<Event>, es: seq<Event>, tid: Tid)
    requires forall i | 0 <= i < |log| :: EventOk(cfg, threads, log, i)
    requires tid in threads && AppendOk(cfg, log, es, tid, threads[tid].peer)
    ensures forall i | 0 <= i < |log + es| :: EventOk(cfg, threads, log + es, i)
  {
    forall i | 0 <= i < |log + es| ensures EventOk(cfg, threads, log + es, i) {
      if i < |log| {
        assert EventOk(cfg, threads, log, i);
        assert (log + es)[..i] == log[..i];
      } else {
        assert (log + es)[i] == es[i - |log|];
      }
    }
  }

  // --- One section ---

  ghost predicate SectionOk(cfg: Config, log: seq<Event>, tid: Tid, th: Thread, o: Out)
  {
    && PcOk(cfg, log + o.events, tid, th.(pc := o.pc))
    && AppendOk(cfg, log, o.events, tid, th.peer)
    && (forall i | 0 <= i < |o.events| && o.events[i].Released? :: th.pc.Read?)
  }

  lemma GateSection(cfg: Config, log: seq<Event>, now: Instant, tid: Tid, th: Thread, d: Daemon, draws: nat)
    requires th.pc.GateTouch? || th.pc.GateState? || th.pc.GateResolve? || th.pc.GateCheck?
    requires PcOk(cfg, log, tid, th) && TimesOrdered(log, now) && d.svc.grants == Fold(map[], log)
    ensures SectionOk(cfg, log, tid, th, ExecGate(cfg, now, tid, th, d, draws))
  {
    hide Fold, TimesOrdered, LiveAt, DrawnKey, IsApproved;
    var o := ExecGate(cfg, now, tid, th, d, draws);
    if th.pc.GateResolve? {
      if th.peer.None? {
        assert (log + o.events)[|log|] == Drew(tid, DrawnKey(draws));
      }
    } else if th.pc.GateCheck? && IsApproved(d.svc.grants, th.pc.key, now) {
      FoldMeetsSpec(log, now, th.pc.key, now);
      assert (log + o.events)[..|log|] == log;
      assert FoundLive(cfg, log + o.events, |log|, tid, th.peer);
    }
  }

  lemma ApprovalSection(cfg: Config, log: seq<Event>, now: Instant, tid: Tid, th: Thread, d: Daemon, draws: nat,
                        env: Env)
    requires IsApproval(th.pc) && PcOk(cfg, log, tid, th)
    ensures SectionOk(cfg, log, tid, th, ExecApproval(cfg, now, tid, th, d, draws, env))
  {
    var o := ExecApproval(cfg, now, tid, th, d, draws, env);
    if o.pc.ApprovalResolve? {
      assert (log + o.events)[|log|] == Authenticated(tid);
    } else if th.pc.ApprovalResolve? {
      if th.peer.None? {
        assert (log + o.events)[|log|] == Drew(tid, DrawnKey(draws));
      }
    } else if th.pc.ApprovalGrant? {
      assert (log + o.events)[..|log|] == log;
    }
  }

  lemma UnlockAndGrantSection(cfg: Config, log: seq<Event>, now: Instant, tid: Tid, th: Thread, d: Daemon, draws: nat,
                              files: DiskIo, pc: Pc, first: seq<Event>)
    requires forall e | e in first :: IsNote(e)
    ensures var o := UnlockAndGrant(cfg, now, tid, th, d, draws, files, pc, first);
            AppendOk(cfg, log, o.events, tid, th.peer) && forall i | 0 <= i < |o.events| :: !o.events[i].Released?
  {
    var o := UnlockAndGrant(cfg, now, tid, th, d, draws, files, pc, first);
    var quiet := first + [Authenticated(tid), ResetFailures] + DrawEvents(cfg, tid, th.peer, draws);
    var grant := GrantedTo(tid, ResolvedKey(cfg, th.peer, draws), now);
    assert o.events == quiet + [grant];
    assert forall e | e in quiet :: !e.GrantedTo? && !e.Released?;
    assert forall i | 0 <= i < |quiet| :: quiet[i] in quiet;
    assert forall i | 0 <= i < |quiet| :: o.events[i] == quiet[i];
    assert (log + o.events)[..|log + quiet|] == log + quiet;
    assert quiet[|first|] == Authenticated(tid);
    if th.peer.None? {
      assert quiet[|first| + 2] == Drew(tid, DrawnKey(draws));
    }
  }

  lemma AgentSection(cfg: Config, log: seq<Event>, now: Instant, tid: Tid, th: Thread, d: Daemon, draws: nat, env: Env)
    requires IsAgent(th.pc)
    ensures SectionOk(cfg, log, tid, th, ExecAgent(cfg, now, tid, th, d, draws, env))
  {
    hide Unlock, Evidence, KeyFor;
    if th.pc.AgentUnlock? {
      var o := ExecAgent(cfg, now, tid, th, d, draws, env);
      var u := Unlock(cfg.crypto, d, th.pc.password, env.unlock.(now := now));
      if u.result.Ok? {
        UnlockAndGrantSection(cfg, log, now, tid, th, u.after, draws, env.files, o.pc, UnlockEvents(d, u, now));
      } else {
        QuietAppend(cfg, log, o.events, tid, th.peer);
      }
    }
  }

  lemma LoginSection(cfg: Config, log: seq<Event>, now: Instant, tid: Tid, th: Thread, d: Daemon, draws: nat, env: Env)
    requires IsLogin(th.pc)
    ensures SectionOk(cfg, log, tid, th, ExecLogin(cfg, now, tid, th, d, draws, env))
  {
    hide Unlock, Evidence, KeyFor;
    if !th.pc.UnlockRun? {
      QuietAppend(cfg, log, ExecLogin(cfg, now, tid, th, d, draws, env).events, tid, th.peer);
    } else {
      var o := ExecLogin(cfg, now, tid, th, d, draws, env);
      var u := Unlock(cfg.crypto, d, th.pc.password, env.unlock.(now := now));
      if u.result.Ok? {
        UnlockAndGrantSection(cfg, log, now, tid, th, u.after, draws, env.files, o.pc, UnlockEvents(d, u, now));
      } else {
        QuietAppend(cfg, log, o.events, tid, th.peer);
      }
    }
  }

  lemma AuthorizeUnlockSection(cfg: Config, log: seq<Event>, now: Instant, tid: Tid, th: Thread, d: Daemon, draws: nat,
                               env: Env)
    requires th.pc.AuthorizeUnlock?
    ensures SectionOk(cfg, log, tid, th, ExecAuthorize(cfg, now, tid, th, d, draws, env))
  {
    hide Unlock, UnlockEvents, Evidence, KeyFor;
    var o := ExecAuthorize(cfg, now, tid, th, d, draws, env);
    var u := Unlock(cfg.crypto, d, th.pc.password, env.unlock.(now := now));
    var notes := UnlockEvents(d, u, now);
    UnlockEventsAreNotes(d, u, now);
    if u.result.Ok? {
      assert o.events[|notes|] == Authenticated(tid);
      assert Authenticated(tid) in o.events;
    }
    QuietAppend(cfg, log, o.events, tid, th.peer);
  }

  lemma AuthorizeSection(cfg: Config, log: seq<Event>, now: Instant, tid: Tid, th: Thread, d: Daemon, draws: nat,
                         env: Env)
    requires IsAuthorize(th.pc) && PcOk(cfg, log, tid, th)
    ensures SectionOk(cfg, log, tid, th, ExecAuthorize(cfg, now, tid, th, d, draws, env))
  {
    hide Unlock, Evidence;
    var o := ExecAuthorize(cfg, now, tid, th, d, draws, env);
    if th.pc.AuthorizeUnlock? {
      AuthorizeUnlockSection(cfg, log, now, tid, th, d, draws, env);
    } else if th.pc.AuthorizeGrant? {
      AuthorizeGrantSection(cfg, log, now, tid, th, draws);
    } else {
      if o.pc.AuthorizeReset? {
        assert o.events[0] == Authenticated(tid);
        assert Authenticated(tid) in o.events;
      }
      QuietAppend(cfg, log, o.events, tid, th.peer);
    }
  }

  lemma QuietAppend(cfg: Config, log: seq<Event>, es: seq<Event>, tid: Tid, peer: Option<U32>)
    requires forall e | e in es :: !e.GrantedTo? && !e.Released?
    ensures AppendOk(cfg, log, es, tid, peer)
  {
    assert forall i | 0 <= i < |es| :: es[i] in es;
  }

  lemma AuthorizeGrantSection(cfg: Config, log: seq<Event>, now: Instant, tid: Tid, th: Thread, draws: nat)
    requires Authenticated(tid) in log
    ensures var granted := GrantedTo(tid, ResolvedKey(cfg, th.peer, draws), now);
            AppendOk(cfg, log, DrawEvents(cfg, tid, th.peer, draws) + [granted], tid, th.peer)
  {
    var drawn := DrawEvents(cfg, tid, th.peer, draws);
    var es := drawn + [GrantedTo(tid, ResolvedKey(cfg, th.peer, draws), now)];
    assert (log + es)[..|log + drawn|] == log + drawn;
    if th.peer.None? {
      assert (log + drawn)[|log|] == Drew(tid, DrawnKey(draws));
    }
  }

  lemma OtherSection(cfg: Config, log: seq<Event>, now: Instant, tid: Tid, th: Thread, d: Daemon, draws: nat, env: Env)
    requires !IsApproval(th.pc) && !IsAgent(th.pc) && !IsLogin(th.pc) && !IsAuthorize(th.pc) && !IsSync(th.pc)
    requires !th.pc.GateTouch? && !th.pc.GateState? && !th.pc.GateResolve? && !th.pc.GateCheck?
    requires PcOk(cfg, log, tid, th)
    ensures SectionOk(cfg, log, tid, th, ExecOther(now, tid, th, d, draws, env))
  {
    var o := ExecOther(now, tid, th, d, draws, env);
    if th.pc.Read? {
      assert (log + o.events)[..|log|] == log;
    } else {
      assert forall i | 0 <= i < |o.events| :: !o.events[i].GrantedTo? && !o.events[i].Released?;
    }
  }

  lemma SyncSectionOk(cfg: Config, log: seq<Event>, now: Instant, tid: Tid, th: Thread, d: Daemon, draws: nat, env: Env)
    requires IsSync(th.pc)
    ensures SectionOk(cfg, log, tid, th, ExecSync(cfg, now, th, d, draws, env))
  {
  }

  lemma AnySection(cfg: Config, log: seq<Event>, now: Instant, tid: Tid, th: Thread, d: Daemon, draws: nat, env: Env)
    requires PcOk(cfg, log, tid, th) && TimesOrdered(log, now) && d.svc.grants == Fold(map[], log)
    ensures SectionOk(cfg, log, tid, th, Exec(cfg, now, tid, th, d, draws, env))
  {
    hide ExecGate, ExecApproval, ExecAgent, ExecLogin, ExecAuthorize, ExecSync, ExecOther, SectionOk;
    if th.pc.GateTouch? || th.pc.GateState? || th.pc.GateResolve? || th.pc.GateCheck? {
      GateSection(cfg, log, now, tid, th, d, draws);
    } else if IsApproval(th.pc) {
      ApprovalSection(cfg, log, now, tid, th, d, draws, env);
    } else if IsAgent(th.pc) {
      AgentSection(cfg, log, now, tid, th, d, draws, env);
    } else if IsLogin(th.pc) {
      LoginSection(cfg, log, now, tid, th, d, draws, env);
    } else if IsAuthorize(th.pc) {
      AuthorizeSection(cfg, log, now, tid, th, d, draws, env);
    } else if IsSync(th.pc) {
      SyncSectionOk(cfg, log, now, tid, th, d, draws, env);
    } else {
      OtherSection(cfg, log, now, tid, th, d, draws, env);
    }
  }

  // --- Over runs ---

  ghost predicate Inv(cfg: Config, s: Sys)
  {
    && Grants.Inv(s)
    && (forall tid | tid in s.threads :: PcOk(cfg, s.log, tid, s.threads[tid]))
    && (forall i | 0 <= i < |s.log| :: EventOk(cfg, s.threads, s.log, i))
  }

  lemma RunKeepsInv(cfg: Config, s: Sys, tid: Tid, env: Env)
    requires Inv(cfg, s) && tid in s.threads
    ensures Inv(cfg, Next(cfg, s, Run(tid, env)))
  {
    hide Exec;
    StepKeepsInv(cfg, s, Run(tid, env));
    var th := s.threads[tid];
    var o := Exec(cfg, s.now, tid, th, s.daemon, s.draws, env);
    AnySection(cfg, s.log, s.now, tid, th, s.daemon, s.draws, env);
    LogGrows(cfg, s.threads, s.log, o.events, tid);
    var t := Next(cfg, s, Run(tid, env));
    forall i | 0 <= i < |t.log| ensures EventOk(cfg, t.threads, t.log, i) {
      assert EventOk(cfg, s.threads, t.log, i);
    }
    forall other | other in t.threads ensures PcOk(cfg, t.log, other, t.threads[other]) {
      if other != tid {
        PcOkGrows(cfg, s.log, o.events, other, s.threads[other]);
      }
    }
  }

  /** A step that records neither a grant nor a release and puts no thread
      anywhere that needs evidence. */
  lemma QuietKeepsInv(cfg: Config, s: Sys, t: Sys, es: seq<Event>)
    requires Inv(cfg, s) && Grants.Inv(t) && t.log == s.log + es
    requires forall e | e in es :: !e.GrantedTo? && !e.Released?
    requires forall tid | tid in s.threads :: tid in t.threads && t.threads[tid].peer == s.threads[tid].peer
    requires forall tid | tid in t.threads ::
               (tid in s.threads && t.threads[tid] == s.threads[tid])
               || t.threads[tid].pc.Done? || IsEntry(t.threads[tid].pc)
    ensures Inv(cfg, t)
  {
    hide Evidence, KeyFor, LiveAt;
    forall i | 0 <= i < |t.log| ensures EventOk(cfg, t.threads, t.log, i) {
      if i < |s.log| {
        assert EventOk(cfg, s.threads, s.log, i);
        assert t.log[..i] == s.log[..i];
      } else {
        assert t.log[i] in es;
      }
    }
    forall tid | tid in t.threads ensures PcOk(cfg, t.log, tid, t.threads[tid]) {
      if tid in s.threads && t.threads[tid] == s.threads[tid] {
        PcOkGrows(cfg, s.log, es, tid, s.threads[tid]);
      }
    }
  }

  lemma QuietAutoLock(now: Instant, d: Daemon, draws: nat)
    ensures forall e | e in AutoLock(now, d, draws).events :: !e.GrantedTo? && !e.Released?
  {
  }

  lemma StepKeepsEvidence(cfg: Config, s: Sys, a: Action)
    requires Inv(cfg, s)
    ensures Inv(cfg, Next(cfg, s, a))
  {
    hide Exec, PcOk, EventOk, Sound, TimesOrdered, Fold, AutoLock;
    QuietAutoLock(s.now, s.daemon, s.draws);
    StepKeepsInv(cfg, s, a);
    var t := Next(cfg, s, a);
    match a
    case Run(tid, env) =>
      if tid in s.threads {
        RunKeepsInv(cfg, s, tid, env);
      }
    case AutoLockTick => QuietKeepsInv(cfg, s, t, AutoLock(s.now, s.daemon, s.draws).events);
    case Restart(readable) => QuietKeepsInv(cfg, s, t, [Restarted]);
    case _ =>
      assert t.log == s.log + [];
      QuietKeepsInv(cfg, s, t, []);
  }

  lemma {:induction false} RunsKeepEvidence(cfg: Config, s: Sys, actions: seq<Action>)
    requires Inv(cfg, s)
    ensures Inv(cfg, Runs(cfg, s, actions))
    decreases |actions|
  {
    if actions != [] {
      StepKeepsEvidence(cfg, s, actions[0]);
      RunsKeepEvidence(cfg, Next(cfg, s, actions[0]), actions[1..]);
    }
  }

  lemma ReachableEvidence(cfg: Config, store: Store, prompt: PromptMethod, now: Instant, actions: seq<Action>)
    ensures Inv(cfg, Runs(cfg, Boot(cfg, store, prompt, now), actions))
  {
    ReachableInv(cfg, store, prompt, now, []);
    RunsKeepEvidence(cfg, Boot(cfg, store, prompt, now), actions);
  }

  // --- Said of the actions of the run ---

  /** Action k is this request finding its own scope key approved and unexpired. */
  ghost predicate FoundAt(cfg: Config, start: Sys, actions: seq<Action>, k: nat, tid: Tid, key: U32)
  {
    && k < |actions| && actions[k].Run? && actions[k].tid == tid
    && var s := At(cfg, start, actions, k);
       && tid in s.threads && s.threads[tid].pc.GateCheck? && s.threads[tid].pc.key == key
       && KeyFor(cfg, s.log, tid, s.threads[tid].peer, key)
       && key in s.daemon.svc.grants && s.now < s.daemon.svc.grants[key]
  }

  /** Action n gave the key 300 seconds, and its request had proved itself by action m. */
  ghost predicate GrantedAt(cfg: Config, start: Sys, actions: seq<Action>, n: nat, m: nat, key: U32)
  {
    && m <= n < |actions| && actions[n].Run? && ProvedAt(cfg, start, actions, m, actions[n].tid)
    && var s, t := At(cfg, start, actions, n), At(cfg, start, actions, n + 1);
       && actions[n].tid in s.threads
       && KeyFor(cfg, t.log, actions[n].tid, s.threads[actions[n].tid].peer, key)
       && key in t.daemon.svc.grants && t.daemon.svc.grants[key] == s.now + 300 * SECOND
  }

  /** At action k the request found a grant of action n less than 300 seconds old,
      there ever since. */
  ghost predicate ByGrant(cfg: Config, start: Sys, actions: seq<Action>, tid: Tid, k: nat, n: nat, m: nat, key: U32)
  {
    && FoundAt(cfg, start, actions, k, tid, key) && GrantedAt(cfg, start, actions, n, m, key) && n < k
    && At(cfg, start, actions, k).now < At(cfg, start, actions, n).now + 300 * SECOND
    && forall j | n < j <= k :: key in At(cfg, start, actions, j).daemon.svc.grants
  }

  /** The request proved the user to be present, or found a live grant of one that had. */
  ghost predicate Vouched(cfg: Config, start: Sys, actions: seq<Action>, tid: Tid)
  {
    (exists m :: ProvedAt(cfg, start, actions, m, tid))
    || exists k, n, m, key :: ByGrant(cfg, start, actions, tid, k, n, m, key)
  }

  /** A step that notes a live key is a check of that key, and notes nothing else. */
  lemma StepChecks(cfg: Config, s: Sys, a: Action, p: nat)
    requires Inv(cfg, s) && |s.log| <= p < |Next(cfg, s, a).log| && Next(cfg, s, a).log[p].Checked?
    ensures var e := Next(cfg, s, a).log[p];
            && p == |s.log| && a.Run? && a.tid == e.tid && e.tid in s.threads && e.at == s.now
            && s.threads[e.tid].pc.GateCheck? && s.threads[e.tid].pc.key == e.key
            && IsApproved(s.daemon.svc.grants, e.key, s.now)
  {
    hide Exec, AutoLock, Start, PcOk, EventOk, Sound;
    match a
    case Run(tid, env) =>
      if tid in s.threads {
        SectionChecks(cfg, s.now, tid, s.threads[tid], s.daemon, s.draws, env);
        assert Exec(cfg, s.now, tid, s.threads[tid], s.daemon, s.draws, env).events[p - |s.log|].Checked?;
      }
    case AutoLockTick => TickChecksNothing(s.now, s.daemon, s.draws);
    case _ =>
  }

  lemma TickChecksNothing(now: Instant, d: Daemon, draws: nat)
    ensures forall e | e in AutoLock(now, d, draws).events :: !e.Checked?
  {
  }

  lemma UnlockChecksNothing(cfg: Config, now: Instant, tid: Tid, th: Thread, d: Daemon, draws: nat, env: Env)
    requires AtUnlock(th.pc)
    ensures forall e | e in Exec(cfg, now, tid, th, d, draws, env).events :: !e.Checked?
  {
    hide Unlock, UnlockEvents, ResolvedKey, RecordFailure, ResetAttempts, EpochSeconds, Grant;
    var u := Unlock(cfg.crypto, d, th.pc.password, env.unlock.(now := now));
    UnlockEventsAreNotes(d, u, now);
  }

  lemma SectionChecks(cfg: Config, now: Instant, tid: Tid, th: Thread, d: Daemon, draws: nat, env: Env)
    ensures var es := Exec(cfg, now, tid, th, d, draws, env).events;
            forall e | e in es && e.Checked? ::
              && th.pc.GateCheck? && IsApproved(d.svc.grants, th.pc.key, now) && es == [Checked(tid, th.pc.key, now)]
  {
    hide Unlock, UnlockEvents, ResolvedKey, BackoffRemaining, EpochSeconds;
    if AtUnlock(th.pc) {
      UnlockChecksNothing(cfg, now, tid, th, d, draws, env);
    }
  }

  lemma StepGrants(cfg: Config, s: Sys, a: Action, p: nat)
    requires Inv(cfg, s) && |s.log| <= p < |Next(cfg, s, a).log| && Next(cfg, s, a).log[p].GrantedTo?
    ensures var t := Next(cfg, s, a);
            && a.Run? && a.tid == t.log[p].tid && a.tid in s.threads && t.log[p].at == s.now
            && p == |t.log| - 1 && t.now == s.now
  {
    hide Exec, AutoLock, Start, PcOk, EventOk, Sound, Backed;
    QuietAutoLock(s.now, s.daemon, s.draws);
    match a
    case Run(tid, env) =>
      if tid in s.threads {
        var o := Exec(cfg, s.now, tid, s.threads[tid], s.daemon, s.draws, env);
        ExecAccounts(cfg, s.now, tid, s.threads[tid], s.daemon, s.draws, env);
        AnySection(cfg, s.log, s.now, tid, s.threads[tid], s.daemon, s.draws, env);
        assert o.events[p - |s.log|] in o.events;
        GrantIsLast(cfg, s.now, a.tid, s.threads[tid], s.daemon, s.draws, env);
      }
    case _ =>
  }

  lemma LastOfQuiet(es: seq<Event>, quiet: seq<Event>, last: Event)
    requires es == quiet + [last] && forall e | e in quiet :: !e.GrantedTo?
    ensures forall i | 0 <= i < |es| && es[i].GrantedTo? :: i == |es| - 1
  {
    assert forall i | 0 <= i < |quiet| :: quiet[i] in quiet;
  }

  lemma UnlockGrantIsLast(cfg: Config, now: Instant, tid: Tid, th: Thread, d: Daemon, draws: nat, env: Env)
    requires AtUnlock(th.pc)
    ensures var es := Exec(cfg, now, tid, th, d, draws, env).events;
            forall i | 0 <= i < |es| && es[i].GrantedTo? :: i == |es| - 1
  {
    hide Unlock, UnlockEvents, ResolvedKey, RecordFailure, ResetAttempts, EpochSeconds, Grant;
    var u := Unlock(cfg.crypto, d, th.pc.password, env.unlock.(now := now));
    var notes := UnlockEvents(d, u, now);
    UnlockEventsAreNotes(d, u, now);
    var es := Exec(cfg, now, tid, th, d, draws, env).events;
    if u.result.Ok? && !th.pc.AuthorizeUnlock? {
      var quiet := notes + [Authenticated(tid), ResetFailures] + DrawEvents(cfg, tid, th.peer, draws);
      LastOfQuiet(es, quiet, GrantedTo(tid, ResolvedKey(cfg, th.peer, draws), now));
    } else {
      assert forall e | e in es :: !e.GrantedTo?;
    }
  }

  lemma GrantIsLast(cfg: Config, now: Instant, tid: Tid, th: Thread, d: Daemon, draws: nat, env: Env)
    ensures var es := Exec(cfg, now, tid, th, d, draws, env).events;
            forall i | 0 <= i < |es| && es[i].GrantedTo? :: i == |es| - 1
  {
    hide Unlock, UnlockEvents, ResolvedKey, BackoffRemaining, EpochSeconds;
    if AtUnlock(th.pc) {
      UnlockGrantIsLast(cfg, now, tid, th, d, draws, env);
    }
  }

  /** Where a grant in the log of a run comes from. */
  lemma GrantComesFrom(cfg: Config, store: Store, prompt: PromptMethod, now: Instant, actions: seq<Action>, g: nat)
    returns (n: nat, m: nat)
    requires var log := Runs(cfg, Boot(cfg, store, prompt, now), actions).log; g < |log| && log[g].GrantedTo?
    ensures var boot := Boot(cfg, store, prompt, now);
            var e := Runs(cfg, boot, actions).log[g];
            && Wrote(cfg, boot, actions, n, g) && GrantedAt(cfg, boot, actions, n, m, e.key)
            && actions[n].tid == e.tid && At(cfg, boot, actions, n).now == e.at
  {
    hide Next, Runs, Proves, KeyFor, Boot, Evidence, PcOk, Sound, Fold, TimesOrdered;
    var boot := Boot(cfg, store, prompt, now);
    BootIsEmpty(cfg, store, prompt, now);
    var log := Runs(cfg, boot, actions).log;
    n := Writer(cfg, boot, actions, g);
    var s, t := At(cfg, boot, actions, n), At(cfg, boot, actions, n + 1);
    ReachableEvidence(cfg, store, prompt, now, actions[..n]);
    ReachableEvidence(cfg, store, prompt, now, actions[..n + 1]);
    StepGrants(cfg, s, actions[n], g);
    assert EventOk(cfg, t.threads, t.log, g);
    var q :| 0 <= q < |t.log[..g]| && t.log[..g][q] == Authenticated(log[g].tid);
    assert log[q] == Authenticated(log[g].tid);
    m := WasProved(cfg, store, prompt, now, actions, q);
    WritersOrdered(cfg, boot, actions, m, q, n, g);
    AtGrows(cfg, boot, actions, n, n + 1);
    GrantIsFresh(cfg, t, g, s.now);
    KeyForGrows(cfg, t.log, g, log[g].tid, t.threads[log[g].tid].peer, log[g].key);
  }

  lemma BootIsEmpty(cfg: Config, store: Store, prompt: PromptMethod, now: Instant)
    ensures Boot(cfg, store, prompt, now).log == []
  {
  }

  lemma KeyForGrows(cfg: Config, log: seq<Event>, g: nat, tid: Tid, peer: Option<U32>, key: U32)
    requires g <= |log| && KeyFor(cfg, log[..g], tid, peer, key)
    ensures KeyFor(cfg, log, tid, peer, key)
  {
  }

  /** A grant dated now, with nothing cleared since, is in the cache for 300 seconds. */
  lemma GrantIsFresh(cfg: Config, t: Sys, g: nat, now: Instant)
    requires Inv(cfg, t) && t.now == now && g < |t.log| && t.log[g].GrantedTo? && t.log[g].at == now
    requires forall j | g < j < |t.log| :: !Clears(t.log[j])
    ensures var key := t.log[g].key; key in t.daemon.svc.grants && t.daemon.svc.grants[key] == now + 300 * SECOND
  {
    hide PcOk, EventOk, Sound, Fold;
    var key := t.log[g].key;
    FoldMeetsSpec(t.log, t.now, key, now + 300 * SECOND - 1);
    FoldMeetsSpec(t.log, t.now, key, now + 300 * SECOND);
    assert Witnesses(t.log, g, key, now + 300 * SECOND - 1);
  }

  /** A live key that a request found, by the log, was found by some action of the
      run, and is the grant of an earlier one. */
  lemma FoundByGrant(cfg: Config, store: Store, prompt: PromptMethod, now: Instant, actions: seq<Action>, j: nat)
    requires var log := Runs(cfg, Boot(cfg, store, prompt, now), actions).log;
             j < |log| && log[j].Checked? && LiveAt(log[..j], log[j].key, log[j].at)
    ensures var boot := Boot(cfg, store, prompt, now);
            Vouched(cfg, boot, actions, Runs(cfg, boot, actions).log[j].tid)
  {
    hide Next, Runs, Boot, KeyFor, Inv, Fold, TimesOrdered, GrantedAt, ProvedAt, Sound;
    var boot := Boot(cfg, store, prompt, now);
    BootIsEmpty(cfg, store, prompt, now);
    var log := Runs(cfg, boot, actions).log;
    var e := log[j];
    var k := Writer(cfg, boot, actions, j);
    var s := At(cfg, boot, actions, k);
    ReachableEvidence(cfg, store, prompt, now, actions[..k]);
    StepChecks(cfg, s, actions[k], j);
    assert log[..j] == s.log;
    CheckedKeyFor(cfg, s, e.tid);
    var g :| 0 <= g < |s.log| && Witnesses(s.log, g, e.key, e.at);
    var n, m := GrantComesFrom(cfg, store, prompt, now, actions, g);
    WritersOrdered(cfg, boot, actions, n, g, k, j);
    forall x | n < x <= k ensures e.key in At(cfg, boot, actions, x).daemon.svc.grants {
      AtGrows(cfg, boot, actions, n + 1, x);
      AtGrows(cfg, boot, actions, x, k);
      ReachableEvidence(cfg, store, prompt, now, actions[..x]);
      StillThere(cfg, At(cfg, boot, actions, x), s, g, e.key, e.at);
    }
    assert ByGrant(cfg, boot, actions, e.tid, k, n, m, e.key);
  }

  lemma CheckedKeyFor(cfg: Config, s: Sys, tid: Tid)
    requires Inv(cfg, s) && tid in s.threads && s.threads[tid].pc.GateCheck?
    ensures KeyFor(cfg, s.log, tid, s.threads[tid].peer, s.threads[tid].pc.key)
  {
    assert PcOk(cfg, s.log, tid, s.threads[tid]);
  }

  /** A grant that a later state shows is in the cache of every state between. */
  lemma StillThere(cfg: Config, x: Sys, s: Sys, g: nat, key: U32, t: Instant)
    requires Inv(cfg, x) && x.log <= s.log && g < |x.log| && Witnesses(s.log, g, key, t)
    ensures key in x.daemon.svc.grants
  {
    assert Witnesses(x.log, g, key, t);
    FoldMeetsSpec(x.log, x.now, key, t);
  }

  /** A step that hands out plaintext or a signature, in any reachable state: the
      vault is unlocked and keyed right then, the request stands at its read, and
      an earlier action of the run was this request proving the user to be present
      or finding a grant less than 300 seconds old, there ever since, of a request
      with the same scope key that had. The handlers that never test the state are
      covered like the others. */
  lemma GatedRelease(cfg: Config, store: Store, prompt: PromptMethod, now: Instant, actions: seq<Action>, a: Action,
                     i: nat)
    requires var s := Runs(cfg, Boot(cfg, store, prompt, now), actions);
             var t := Next(cfg, s, a);
             |s.log| <= i < |t.log| && t.log[i].Released?
    ensures var s := Runs(cfg, Boot(cfg, store, prompt, now), actions);
            var e := Next(cfg, s, a).log[i];
            && s.daemon.svc.status.Unlocked? && Keyed(s.daemon.svc)
            && a.Run? && e.tid == a.tid && e.tid in s.threads && s.threads[e.tid].pc == Read(e.op)
            && Vouched(cfg, Boot(cfg, store, prompt, now), actions, e.tid)
  {
    hide Next, Runs, Boot, Inv, Vouched, Sound;
    ReachableEvidence(cfg, store, prompt, now, actions);
    var s := Runs(cfg, Boot(cfg, store, prompt, now), actions);
    ReleaseFromInv(cfg, s, a, i);
    EvidenceIsVouched(cfg, store, prompt, now, actions, Next(cfg, s, a).log[i].tid);
  }

  lemma EvidenceIsVouched(cfg: Config, store: Store, prompt: PromptMethod, now: Instant, actions: seq<Action>, tid: Tid)
    requires var s := Runs(cfg, Boot(cfg, store, prompt, now), actions);
             tid in s.threads && Evidence(cfg, s.log, tid, s.threads[tid].peer)
    ensures Vouched(cfg, Boot(cfg, store, prompt, now), actions, tid)
  {
    hide Next, Runs, Boot, LiveAt, KeyFor, ProvedAt, ByGrant;
    var log := Runs(cfg, Boot(cfg, store, prompt, now), actions).log;
    if Authenticated(tid) in log {
      var p :| 0 <= p < |log| && log[p] == Authenticated(tid);
      var m := WasProved(cfg, store, prompt, now, actions, p);
    } else {
      var peer := Runs(cfg, Boot(cfg, store, prompt, now), actions).threads[tid].peer;
      var j :| 0 <= j < |log| && FoundLive(cfg, log, j, tid, peer);
      FoundByGrant(cfg, store, prompt, now, actions, j);
    }
  }

  /** Nor does a request get to read without that, whatever it then reads. */
  lemma ReadsAreVouched(cfg: Config, store: Store, prompt: PromptMethod, now: Instant, actions: seq<Action>, tid: Tid)
    requires var s := Runs(cfg, Boot(cfg, store, prompt, now), actions); tid in s.threads && s.threads[tid].pc.Read?
    ensures Vouched(cfg, Boot(cfg, store, prompt, now), actions, tid)
  {
    hide Next, Runs, Boot, Vouched, Evidence;
    ReachableEvidence(cfg, store, prompt, now, actions);
    var s := Runs(cfg, Boot(cfg, store, prompt, now), actions);
    assert PcOk(cfg, s.log, tid, s.threads[tid]);
    EvidenceIsVouched(cfg, store, prompt, now, actions, tid);
  }

  lemma ReleaseFromInv(cfg: Config, s: Sys, a: Action, i: nat)
    requires Inv(cfg, s)
    requires |s.log| <= i < |Next(cfg, s, a).log| && Next(cfg, s, a).log[i].Released?
    ensures var e := Next(cfg, s, a).log[i];
            && s.daemon.svc.status.Unlocked? && Keyed(s.daemon.svc)
            && a.Run? && e.tid == a.tid && e.tid in s.threads && s.threads[e.tid].pc == Read(e.op)
            && Evidence(cfg, s.log, e.tid, s.threads[e.tid].peer)
  {
    hide Exec, Evidence, EventOk;
    if a.Run? {
      var th := s.threads[a.tid];
      var o := Exec(cfg, s.now, a.tid, th, s.daemon, s.draws, a.env);
      AnySection(cfg, s.log, s.now, a.tid, th, s.daemon, s.draws, a.env);
      assert o.events[i - |s.log|].Released?;
      assert th.pc.Read?;
      ReadReleasesKeyed(cfg, s.now, a.tid, th, s.daemon, s.draws, a.env);
      assert PcOk(cfg, s.log, a.tid, th);
    }
  }

  lemma ReadReleasesKeyed(cfg: Config, now: Instant, tid: Tid, th: Thread, d: Daemon, draws: nat, env: Env)
    requires th.pc.Read?
    ensures forall e | e in Exec(cfg, now, tid, th, d, draws, env).events && e.Released? ::
              Keyed(d.svc) && e == Released(tid, th.pc.op)
  {
  }

  lemma UnlockReleasesNothing(cfg: Config, now: Instant, tid: Tid, th: Thread, d: Daemon, draws: nat, env: Env)
    requires AtUnlock(th.pc)
    ensures forall e | e in Exec(cfg, now, tid, th, d, draws, env).events :: !e.Released?
  {
    hide Unlock, UnlockEvents, ResolvedKey, RecordFailure, ResetAttempts, EpochSeconds, Grant;
    var u := Unlock(cfg.crypto, d, th.pc.password, env.unlock.(now := now));
    UnlockEventsAreNotes(d, u, now);
  }

  lemma OthersReleaseNothing(cfg: Config, now: Instant, tid: Tid, th: Thread, d: Daemon, draws: nat, env: Env)
    requires !AtUnlock(th.pc) && !th.pc.Read?
    ensures forall e | e in Exec(cfg, now, tid, th, d, draws, env).events :: !e.Released?
  {
    hide Unlock, UnlockEvents, ResolvedKey, BackoffRemaining, EpochSeconds, Login, Logout, VerifyPin, VerifyPassword;
    hide LockEffect, SetPin, Sync, RecordFailure, ResetAttempts, Grant, ExecRead;
  }

  lemma ReadReleases(cfg: Config, now: Instant, tid: Tid, th: Thread, d: Daemon, draws: nat, env: Env, op: Op)
    requires th.pc.Read? && Sound(d.svc)
    ensures Released(tid, op) in Exec(cfg, now, tid, th, d, draws, env).events
       <==> th.pc == Read(op) && !op.SyncTrigger? && d.svc.status.Unlocked?
  {
    var o := Exec(cfg, now, tid, th, d, draws, env);
    if th.pc == Read(op) && !op.SyncTrigger? && d.svc.status.Unlocked? {
      assert o.events == [Released(tid, op)];
    }
  }

  /** A read logs a release exactly when it reads from an unlocked vault; the reply
      to a sync holds no secrets. */
  lemma ReleasesIff(cfg: Config, now: Instant, tid: Tid, th: Thread, d: Daemon, draws: nat, env: Env, op: Op)
    requires Sound(d.svc)
    ensures Released(tid, op) in Exec(cfg, now, tid, th, d, draws, env).events
       <==> th.pc == Read(op) && !op.SyncTrigger? && d.svc.status.Unlocked?
  {
    hide Exec;
    if AtUnlock(th.pc) {
      UnlockReleasesNothing(cfg, now, tid, th, d, draws, env);
    } else if th.pc.Read? {
      ReadReleases(cfg, now, tid, th, d, draws, env, op);
    } else {
      OthersReleaseNothing(cfg, now, tid, th, d, draws, env);
    }
  }

  /** Every grant ever recorded is the work of an action of the run, whose request
      had proved the user to be present by an action no later, and names a key that
      its peer resolves to. */
  lemma GrantsFollowAuthentication(cfg: Config, store: Store, prompt: PromptMethod, now: Instant, actions: seq<Action>,
                                   i: nat) returns (n: nat, m: nat)
    requires var s := Runs(cfg, Boot(cfg, store, prompt, now), actions); i < |s.log| && s.log[i].GrantedTo?
    ensures var boot := Boot(cfg, store, prompt, now);
            var e := Runs(cfg, boot, actions).log[i];
            && GrantedAt(cfg, boot, actions, n, m, e.key) && actions[n].tid == e.tid
            && ProvedAt(cfg, boot, actions, m, e.tid) && m <= n && At(cfg, boot, actions, n).now == e.at
  {
    n, m := GrantComesFrom(cfg, store, prompt, now, actions, i);
  }

  /** So every approval that the cache of a reachable state holds is one that an
      action of the run gave, to a request that had proved itself. */
  lemma ApprovalsWereProved(cfg: Config, store: Store, prompt: PromptMethod, now: Instant, actions: seq<Action>,
                            key: U32) returns (n: nat, m: nat)
    requires key in Runs(cfg, Boot(cfg, store, prompt, now), actions).daemon.svc.grants
    ensures var boot := Boot(cfg, store, prompt, now);
            && GrantedAt(cfg, boot, actions, n, m, key)
            && Runs(cfg, boot, actions).daemon.svc.grants[key] <= At(cfg, boot, actions, n).now + 300 * SECOND
  {
    hide Next, Runs, Boot, GrantedAt, Fold;
    var s := Runs(cfg, Boot(cfg, store, prompt, now), actions);
    var last := s.daemon.svc.grants[key] - 1;
    ApprovalRefinesLog(cfg, store, prompt, now, actions, key, last);
    var g :| 0 <= g < |s.log| && Witnesses(s.log, g, key, last);
    n, m := GrantComesFrom(cfg, store, prompt, now, actions, g);
  }
}
