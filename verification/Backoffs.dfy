/** The master-password backoff when checking and recording are separate
    critical sections. */
module Backoffs {
  import opened Base
  import opened VaultCaches
  import opened Service
  import opened Machine
  import opened Unlocking
  import opened Authentications
  import opened Histories
  import opened Refusals
  import Durable
  import Residency

  /** What a restart can cost: the file remembers whole seconds. */
  function Slack(span: Span): int { if span.OneProcess? then 0 else SECOND }

  function Window(span: Span): int { 30 * SECOND - Slack(span) }

  const CAPPED_FROM: nat := 7

  // --- The schedule ---

  /** The prompt agent's own copy of the schedule (pin.rs). */
  function ScheduleSeconds(attempt: nat): nat
  {
    if attempt <= 1 then 0
    else
      var exp := if attempt - 2 < 30 then attempt - 2 else 30;
      if Pow2(exp) < 30 then Pow2(exp) else 30
  }

  lemma {:induction false} Pow2Grows(m: nat, n: nat)
    requires m <= n
    ensures Pow2(m) <= Pow2(n)
    decreases n - m
  {
    if m < n { Pow2Grows(m, n - 1); }
  }

  /** The schedule in closed form: 0, 0, 1, 2, 4, 8, 16 and 30 from then on; the
      service and the prompt agent agree on it for every count. */
  lemma DelayTable(n: nat)
    ensures ScheduleSeconds(n) == Delay(n)
    ensures Delay(n) == (if n <= 1 then 0 else if n == 2 then 1 else if n == 3 then 2 else if n == 4 then 4
                         else if n == 5 then 8 else if n == 6 then 16 else 30)
  {
    assert Pow2(1) == 2 && Pow2(2) == 4;
    assert Pow2(3) == 2 * Pow2(2);
    assert Pow2(4) == 2 * Pow2(3);
    assert Pow2(5) == 2 * Pow2(4);
    if n >= CAPPED_FROM {
      Pow2Grows(5, Min(n - 2, 30));
    }
  }

  /** The waiting time the first n - 1 failures impose before the n-th. */
  function TotalDelay(n: nat): nat
  {
    if n <= 1 then 0 else TotalDelay(n - 1) + Delay(n - 1)
  }

  lemma {:induction false} TotalDelayClosedForm(n: nat)
    requires n >= CAPPED_FROM
    ensures TotalDelay(n) == 30 * n - 179
    decreases n
  {
    DelayTable(n - 1);
    if n == CAPPED_FROM {
      DelayTable(1); DelayTable(2); DelayTable(3); DelayTable(4); DelayTable(5);
      assert TotalDelay(2) == 0;
      assert TotalDelay(3) == TotalDelay(2) + Delay(2);
      assert TotalDelay(4) == TotalDelay(3) + Delay(3);
      assert TotalDelay(5) == TotalDelay(4) + Delay(4);
      assert TotalDelay(6) == TotalDelay(5) + Delay(5);
    } else {
      TotalDelayClosedForm(n - 1);
    }
  }

  // --- Failures since the last success, and in one process since the restart ---

  datatype Failure = Failure(at: Instant, count: nat)

  function Note(fs: seq<Failure>, e: Event, span: Span): seq<Failure>
  {
    match e
    case RecordedFailure(at, count) => fs + [Failure(at, count)]
    case ResetFailures => []
    case Restarted => if span.OneProcess? then [] else fs
    case _ => fs
  }

  function FailuresOf(log: seq<Event>, span: Span): seq<Failure>
    decreases |log|
  {
    if log == [] then [] else Note(FailuresOf(log[..|log| - 1], span), log[|log| - 1], span)
  }

  predicate Quiet(es: seq<Event>)
  {
    forall e | e in es :: !e.RecordedFailure? && !e.ResetFailures? && !e.Restarted?
  }

  lemma {:induction false} QuietFailures(log: seq<Event>, es: seq<Event>, span: Span)
    requires Quiet(es)
    ensures FailuresOf(log + es, span) == FailuresOf(log, span)
    decreases |es|
  {
    if es == [] {
      assert log + es == log;
    } else {
      var n := |es| - 1;
      assert es[n] in es;
      assert (log + es)[..|log + es| - 1] == log + es[..n];
      QuietFailures(log, es[..n], span);
    }
  }

  lemma {:induction false} ResetForgets(log: seq<Event>, es: seq<Event>, span: Span)
    requires ResetFailures in es && forall e | e in es :: !e.RecordedFailure?
    ensures FailuresOf(log + es, span) == []
    decreases |es|
  {
    var n := |es| - 1;
    assert (log + es)[..|log + es| - 1] == log + es[..n];
    assert es[n] in es;
    assert es == es[..n] + [es[n]];
    if !es[n].ResetFailures? {
      ResetForgets(log, es[..n], span);
    }
  }

  // --- Requests between their check and their record ---

  function CheckedAt(pc: Pc): Option<Instant>
  {
    if pc.AgentPrompt? || pc.AgentUnlock? || pc.LoginPrompt? || pc.LoginRun? || pc.UnlockPrompt? || pc.UnlockRun?
       || pc.AuthorizeBranch? || pc.AuthorizeUnlock? || pc.AuthorizeVerify? || pc.AuthorizeRecord?
    then Some(pc.checkedAt) else None
  }

  function Flights(threads: map<Tid, Thread>): set<Tid>
  {
    set tid | tid in threads && CheckedAt(threads[tid].pc).Some?
  }

  /** Those whose check came before the given instant. */
  function FlightsBefore(threads: map<Tid, Thread>, t: Instant): set<Tid>
  {
    set tid | tid in threads && CheckedAt(threads[tid].pc).Some? && CheckedAt(threads[tid].pc).value < t
  }

  /** No more than k requests at a time are between check and record. */
  ghost predicate Bounded(cfg: Config, s: Sys, actions: seq<Action>, k: nat)
    decreases |actions|
  {
    |Flights(s.threads)| <= k && (actions != [] ==> Bounded(cfg, Next(cfg, s, actions[0]), actions[1..], k))
  }

  // --- What one section does ---

  predicate Passes(s: Svc, now: Instant) { BackoffRemaining(s, now) == 0 }

  predicate KeepsBackoff(th: Thread, d: Daemon, now: Instant, o: Out)
  {
    && Quiet(o.events) && o.daemon.svc.attempts == d.svc.attempts && o.daemon.svc.lastAttempt == d.svc.lastAttempt
    && o.daemon.store.backoff == d.store.backoff
    && (CheckedAt(o.pc) == CheckedAt(th.pc) || CheckedAt(o.pc).None?
        || (CheckedAt(o.pc) == Some(now) && Passes(d.svc, now)))
  }

  /** One more failure, now, in memory and in the file as far as it can be written. */
  predicate RecordsFailure(cfg: Config, th: Thread, d: Daemon, now: Instant, files: DiskIo, o: Out)
  {
    && o.daemon.store.backoff
       == Saved(d.store.backoff, Backoff(d.svc.attempts + 1, Some(EpochSeconds(now, cfg.offset))), files.backoff)
    && |o.events| > 0 && o.events[|o.events| - 1] == RecordedFailure(now, d.svc.attempts + 1)
    && Quiet(o.events[..|o.events| - 1])
    && o.daemon.svc.attempts == d.svc.attempts + 1 && o.daemon.svc.lastAttempt == Some(now)
    && CheckedAt(th.pc).Some? && CheckedAt(o.pc).None?
  }

  /** No failures, in memory and, as far as it can be removed, in the file. */
  predicate Resets(d: Daemon, files: DiskIo, o: Out)
  {
    && o.daemon.svc.attempts == 0 && o.daemon.svc.lastAttempt.None?
    && o.daemon.store.backoff == Removed(d.store.backoff, files.backoff)
    && ResetFailures in o.events && (forall e | e in o.events :: !e.RecordedFailure?) && CheckedAt(o.pc).None?
  }

  /** A wrong password is recorded, a right one resets the count, and anything else
      leaves count, time and file alone. */
  predicate SectionBackoff(cfg: Config, th: Thread, d: Daemon, now: Instant, env: Env, o: Out)
  {
    if Wrong(cfg, th, d, env) then RecordsFailure(cfg, th, d, now, env.files, o)
    else if Right(cfg, th, d, env) then Resets(d, env.files, o)
    else KeepsBackoff(th, d, now, o)
  }

  lemma GateBackoff(cfg: Config, now: Instant, tid: Tid, th: Thread, d: Daemon, draws: nat)
    requires th.pc.GateTouch? || th.pc.GateState? || th.pc.GateResolve? || th.pc.GateCheck?
    ensures KeepsBackoff(th, d, now, ExecGate(cfg, now, tid, th, d, draws))
  {
  }

  lemma SyncBackoff(cfg: Config, now: Instant, th: Thread, d: Daemon, draws: nat, env: Env)
    requires IsSync(th.pc)
    ensures KeepsBackoff(th, d, now, ExecSync(cfg, now, th, d, draws, env))
  {
  }

  lemma ApprovalBackoff(cfg: Config, now: Instant, tid: Tid, th: Thread, d: Daemon, draws: nat, env: Env)
    requires IsApproval(th.pc)
    ensures KeepsBackoff(th, d, now, ExecApproval(cfg, now, tid, th, d, draws, env))
  {
  }

  lemma OtherBackoff(now: Instant, tid: Tid, th: Thread, d: Daemon, draws: nat, env: Env)
    ensures KeepsBackoff(th, d, now, ExecOther(now, tid, th, d, draws, env))
  {
  }

  lemma GrantedBackoff(cfg: Config, now: Instant, tid: Tid, th: Thread, before: Daemon, d: Daemon, draws: nat,
                       files: DiskIo, pc: Pc, first: seq<Event>)
    requires (forall e | e in first :: IsNote(e)) && CheckedAt(pc).None? && d.store.backoff == before.store.backoff
    ensures Resets(before, files, UnlockAndGrant(cfg, now, tid, th, d, draws, files, pc, first))
  {
    var o := UnlockAndGrant(cfg, now, tid, th, d, draws, files, pc, first);
    assert o.events[|first| + 1] == ResetFailures;
  }

  lemma RecordOutcome(cfg: Config, now: Instant, th: Thread, before: Daemon, d: Daemon, draws: nat,
                      files: DiskIo, pc: Pc, first: seq<Event>)
    requires (forall e | e in first :: IsNote(e)) && d.svc.attempts == before.svc.attempts
    requires d.store.backoff == before.store.backoff
    requires CheckedAt(th.pc).Some? && CheckedAt(pc).None?
    ensures RecordsFailure(cfg, th, before, now, files, Record(cfg, now, d, draws, files, pc, first))
  {
    var o := Record(cfg, now, d, draws, files, pc, first);
    assert o.events[..|o.events| - 1] == first;
  }

  /** An unlock leaves count, time and backoff file alone, and its result is that of
      the inputs. */
  lemma TriedPassword(cfg: Config, now: Instant, th: Thread, d: Daemon, env: Env)
    requires AtUnlock(th.pc) && Sound(d.svc)
    ensures var u := Unlock(cfg.crypto, d, th.pc.password, env.unlock.(now := now));
            && u.after.svc.attempts == d.svc.attempts && u.after.svc.lastAttempt == d.svc.lastAttempt
            && u.after.store.backoff == d.store.backoff
            && (u.result.Ok? <==> Opens(cfg.crypto, d, th.pc.password, env.unlock))
            && (u.result == Err(AuthFailed) <==> Refuses(cfg.crypto, d, th.pc.password, env.unlock))
  {
    hide Unlock, Opens, Refuses, Sound;
    UnlockSound(cfg.crypto, d, th.pc.password, env.unlock.(now := now));
    UnlockOutcome(cfg.crypto, d, th.pc.password, env.unlock.(now := now));
    OpensAtAnyTime(cfg.crypto, d, th.pc.password, env.unlock, now);
  }

  lemma AgentBackoffs(cfg: Config, now: Instant, tid: Tid, th: Thread, d: Daemon, draws: nat, env: Env)
    requires IsAgent(th.pc) && Sound(d.svc)
    ensures SectionBackoff(cfg, th, d, now, env, ExecAgent(cfg, now, tid, th, d, draws, env))
  {
    hide Unlock, Opens, UnlockEvents, Record, UnlockAndGrant;
    var o := ExecAgent(cfg, now, tid, th, d, draws, env);
    if th.pc.AgentUnlock? {
      TriedPassword(cfg, now, th, d, env);
      var u := Unlock(cfg.crypto, d, th.pc.password, env.unlock.(now := now));
      var notes := UnlockEvents(d, u, now);
      UnlockEventsAreNotes(d, u, now);
      if u.result.Ok? {
        var pc := if th.pc.op.AgentList? then AgentRead else GateResolve(th.pc.op);
        GrantedBackoff(cfg, now, tid, th, d, u.after, draws, env.files, pc, notes);
      } else {
        RecordOutcome(cfg, now, th, d, u.after, draws, env.files, Done(LockedError), notes);
      }
    } else {
      assert KeepsBackoff(th, d, now, o);
    }
  }

  lemma UnlockRunBackoffs(cfg: Config, now: Instant, tid: Tid, th: Thread, d: Daemon, draws: nat, env: Env)
    requires th.pc.UnlockRun? && Sound(d.svc)
    ensures SectionBackoff(cfg, th, d, now, env, ExecLogin(cfg, now, tid, th, d, draws, env))
  {
    hide Unlock, Opens, Refuses, UnlockEvents, Record, UnlockAndGrant;
    var o := ExecLogin(cfg, now, tid, th, d, draws, env);
    TriedPassword(cfg, now, th, d, env);
    var u := Unlock(cfg.crypto, d, th.pc.password, env.unlock.(now := now));
    var notes := UnlockEvents(d, u, now);
    UnlockEventsAreNotes(d, u, now);
    if u.result.Ok? {
      GrantedBackoff(cfg, now, tid, th, d, u.after, draws, env.files, Done(Answered), notes);
    } else if u.result == Err(AuthFailed) {
      RecordOutcome(cfg, now, th, d, u.after, draws, env.files, Done(Failed), notes);
    } else {
      assert KeepsBackoff(th, d, now, o);
    }
  }

  lemma LoginRunBackoffs(cfg: Config, now: Instant, tid: Tid, th: Thread, d: Daemon, draws: nat, env: Env)
    requires th.pc.LoginRun? && Sound(d.svc)
    ensures SectionBackoff(cfg, th, d, now, env, ExecLogin(cfg, now, tid, th, d, draws, env))
  {
    hide Unlock, Opens, Refuses, Record, BackoffRemaining, EpochSeconds, UnlockEvents, UnlockAndGrant, Saved;
    var o := ExecLogin(cfg, now, tid, th, d, draws, env);
    var l := Login(d, th.pc.email, th.pc.url, env.verdict, now, env.files);
    if l.result.Ok? {
      assert o.events[1] == ResetFailures;
    } else if l.result == Err(AuthFailed) {
      RecordOutcome(cfg, now, th, d, l.after, draws, env.files, Done(Failed), []);
    }
  }

  lemma LoginBackoffs(cfg: Config, now: Instant, tid: Tid, th: Thread, d: Daemon, draws: nat, env: Env)
    requires IsLogin(th.pc) && Sound(d.svc)
    ensures SectionBackoff(cfg, th, d, now, env, ExecLogin(cfg, now, tid, th, d, draws, env))
  {
    hide Unlock, Opens, Refuses, RecordsFailure, Resets;
    if th.pc.UnlockRun? {
      UnlockRunBackoffs(cfg, now, tid, th, d, draws, env);
    } else if th.pc.LoginRun? {
      LoginRunBackoffs(cfg, now, tid, th, d, draws, env);
    } else {
      assert KeepsBackoff(th, d, now, ExecLogin(cfg, now, tid, th, d, draws, env));
    }
  }

  lemma AuthorizeUnlockBackoffs(cfg: Config, now: Instant, tid: Tid, th: Thread, d: Daemon, draws: nat, env: Env)
    requires th.pc.AuthorizeUnlock? && Sound(d.svc)
    ensures SectionBackoff(cfg, th, d, now, env, ExecAuthorize(cfg, now, tid, th, d, draws, env))
  {
    hide Unlock, Opens, Refuses, UnlockEvents, Record;
    var o := ExecAuthorize(cfg, now, tid, th, d, draws, env);
    TriedPassword(cfg, now, th, d, env);
    var u := Unlock(cfg.crypto, d, th.pc.password, env.unlock.(now := now));
    var notes := UnlockEvents(d, u, now);
    UnlockEventsAreNotes(d, u, now);
    if u.result.Ok? {
      assert o.events[|notes| + 1] == ResetFailures;
      assert Resets(d, env.files, o);
    } else if u.result == Err(AuthFailed) {
      RecordOutcome(cfg, now, th, d, u.after, draws, env.files, Done(Failed), notes);
    } else {
      assert KeepsBackoff(th, d, now, o);
    }
  }

  lemma AuthorizeRestBackoffs(cfg: Config, now: Instant, tid: Tid, th: Thread, d: Daemon, draws: nat, env: Env)
    requires IsAuthorize(th.pc) && !AtUnlock(th.pc) && !th.pc.AuthorizeReset? && !th.pc.AuthorizeRecord?
    ensures SectionBackoff(cfg, th, d, now, env, ExecAuthorize(cfg, now, tid, th, d, draws, env))
  {
    hide Unlock, Opens, Refuses, RecordsFailure, Resets, EpochSeconds;
    assert KeepsBackoff(th, d, now, ExecAuthorize(cfg, now, tid, th, d, draws, env));
  }

  lemma AuthorizeBackoffs(cfg: Config, now: Instant, tid: Tid, th: Thread, d: Daemon, draws: nat, env: Env)
    requires IsAuthorize(th.pc) && Sound(d.svc)
    ensures SectionBackoff(cfg, th, d, now, env, ExecAuthorize(cfg, now, tid, th, d, draws, env))
  {
    hide Unlock, Opens, Refuses, Record, KeepsBackoff, BackoffRemaining, EpochSeconds;
    if th.pc.AuthorizeUnlock? {
      AuthorizeUnlockBackoffs(cfg, now, tid, th, d, draws, env);
    } else if th.pc.AuthorizeReset? {
      assert ExecAuthorize(cfg, now, tid, th, d, draws, env).events[0] == ResetFailures;
    } else if th.pc.AuthorizeRecord? {
      RecordOutcome(cfg, now, th, d, d, draws, env.files, Done(Failed), []);
    } else {
      AuthorizeRestBackoffs(cfg, now, tid, th, d, draws, env);
    }
  }

  /** Every section, in every sound state: a wrong password is counted, dated now and
      saved; a right one sets the count to zero and removes the file; every other
      section leaves all three alone. */
  lemma AnyBackoff(cfg: Config, now: Instant, tid: Tid, th: Thread, d: Daemon, draws: nat, env: Env)
    requires Sound(d.svc)
    ensures SectionBackoff(cfg, th, d, now, env, Exec(cfg, now, tid, th, d, draws, env))
  {
    hide ExecGate, ExecApproval, ExecAgent, ExecLogin, ExecAuthorize, ExecSync, ExecOther, Opens, Refuses;
    if IsAgent(th.pc) {
      AgentBackoffs(cfg, now, tid, th, d, draws, env);
    } else if IsLogin(th.pc) {
      LoginBackoffs(cfg, now, tid, th, d, draws, env);
    } else if IsAuthorize(th.pc) {
      AuthorizeBackoffs(cfg, now, tid, th, d, draws, env);
    } else if IsApproval(th.pc) {
      ApprovalBackoff(cfg, now, tid, th, d, draws, env);
    } else if IsSync(th.pc) {
      SyncBackoff(cfg, now, th, d, draws, env);
    } else if th.pc.GateTouch? || th.pc.GateState? || th.pc.GateResolve? || th.pc.GateCheck? {
      GateBackoff(cfg, now, tid, th, d, draws);
    } else {
      OtherBackoff(now, tid, th, d, draws, env);
    }
  }

  // --- The log and the counters ---

  predicate Ordered(fs: seq<Failure>, now: Instant)
  {
    && (forall i | 0 <= i < |fs| :: fs[i].at <= now)
    && (forall i, j | 0 <= i < j < |fs| :: fs[i].at <= fs[j].at && fs[j].count == fs[i].count + (j - i))
  }

  /** The remembered time of the last attempt is that of the last failure; across
      restarts it names the same second and is less than a second early. */
  predicate Remembers(cfg: Config, span: Span, last: Option<Instant>, at: Instant)
  {
    && last.Some?
    && match span
       case OneProcess => last.value == at
       case AcrossRestarts(start) =>
         && start <= at && at - SECOND < last.value
         && EpochSeconds(last.value, cfg.offset) == EpochSeconds(at, cfg.offset)
  }

  /** Clocks on which a restart can restore the time of any failure since the
      start: the platform reaches a second before it, and it is after 1970. */
  predicate ClocksReach(cfg: Config, start: Instant)
  {
    cfg.earliest <= start - SECOND && start + cfg.offset >= 0
  }

  ghost predicate Tracked(cfg: Config, s: Sys, span: Span)
  {
    span.AcrossRestarts? ==> Durable.Inv(cfg, s) && ClocksReach(cfg, span.start) && span.start <= s.now
  }

  ghost predicate Inv(cfg: Config, s: Sys, span: Span)
  {
    var fs := FailuresOf(s.log, span);
    && Residency.Inv(s) && Tracked(cfg, s, span)
    && Ordered(fs, s.now)
    && (fs != [] ==> s.daemon.svc.attempts == fs[|fs| - 1].count
                     && Remembers(cfg, span, s.daemon.svc.lastAttempt, fs[|fs| - 1].at))
    && (forall tid | tid in Flights(s.threads) :: CheckedAt(s.threads[tid].pc).value <= s.now)
  }

  /** Across restarts the file operations of a step must succeed. */
  predicate Admits(span: Span, a: Action) { span.AcrossRestarts? ==> Durable.DiskOk(a) }

  predicate AdmitsAll(span: Span, actions: seq<Action>) { forall i | 0 <= i < |actions| :: Admits(span, actions[i]) }

  // --- The failures in the log are the wrong passwords of the actions ---

  function TimesOf(fs: seq<Failure>): seq<Instant> { seq(|fs|, i requires 0 <= i < |fs| => fs[i].at) }

  lemma StepRefusals(cfg: Config, s: Sys, a: Action, span: Span)
    requires Residency.Inv(s)
    ensures var fs, gs := FailuresOf(s.log, span), FailuresOf(Next(cfg, s, a).log, span);
            if a.Run? && a.tid in s.threads && Wrong(cfg, s.threads[a.tid], s.daemon, a.env) then
              gs == fs + [Failure(s.now, s.daemon.svc.attempts + 1)]
            else if (a.Run? && a.tid in s.threads && Right(cfg, s.threads[a.tid], s.daemon, a.env))
                    || (a.Restart? && span.OneProcess?) then gs == []
            else gs == fs
  {
    hide Exec, FailuresOf, Wrong, Right, AutoLock, Start, Sound;
    match a
    case Run(tid, env) =>
      if tid in s.threads {
        var th := s.threads[tid];
        var o := Exec(cfg, s.now, tid, th, s.daemon, s.draws, env);
        AnyBackoff(cfg, s.now, tid, th, s.daemon, s.draws, env);
        if Wrong(cfg, th, s.daemon, env) {
          RecordAppends(s.log, o.events, span);
        } else if Right(cfg, th, s.daemon, env) {
          ResetForgets(s.log, o.events, span);
        } else {
          QuietFailures(s.log, o.events, span);
        }
      }
    case AutoLockTick =>
      AutoLockKeepsBackoff(s.now, s.daemon, s.draws);
      QuietFailures(s.log, AutoLock(s.now, s.daemon, s.draws).events, span);
    case Restart(_) => RestartOnLog(s.log, span);
    case _ =>
  }

  /** Over every run: what the log shows as failures is when passwords were wrong. */
  lemma {:induction false} RefusedAreFailures(cfg: Config, start: Sys, actions: seq<Action>, span: Span)
    requires Residency.Inv(start) && start.log == []
    ensures RefusedTimes(cfg, start, actions, span) == TimesOf(FailuresOf(Runs(cfg, start, actions).log, span))
    decreases |actions|
  {
    hide Next, Wrong, Right, Sound;
    if actions != [] {
      var n := |actions| - 1;
      RefusedAreFailures(cfg, start, actions[..n], span);
      Residency.RunsSound(cfg, start, actions[..n]);
      StepRefusals(cfg, Runs(cfg, start, actions[..n]), actions[n], span);
      RunsSnoc(cfg, start, actions[..n], actions[n]);
      assert actions == actions[..n] + [actions[n]];
    } else {
      assert FailuresOf([], span) == [];
    }
  }

  /** So the wrong passwords of a run since the last right one, in order, carry
      consecutive counts. */
  lemma RefusalsCounted(cfg: Config, store: Store, prompt: PromptMethod, now: Instant, actions: seq<Action>, span: Span)
    requires Starts(cfg, store, now, span) && AdmitsAll(span, actions)
    ensures var boot := Boot(cfg, store, prompt, now);
            var rs, fs := RefusedTimes(cfg, boot, actions, span), FailuresOf(Runs(cfg, boot, actions).log, span);
            && |rs| == |fs| && (forall i | 0 <= i < |rs| :: rs[i] == fs[i].at && fs[i].count >= i + 1)
            && (rs != [] ==> Runs(cfg, boot, actions).daemon.svc.attempts >= |rs|)
  {
    hide Runs, FailuresOf, RefusedTimes, Boot, Sound, Tracked, Remembers;
    var boot := Boot(cfg, store, prompt, now);
    BootInv(cfg, store, prompt, now, span);
    BootLogEmpty(cfg, store, prompt, now);
    RefusedAreFailures(cfg, boot, actions, span);
    RunsKeepTracking(cfg, boot, actions, span);
  }

  lemma BootLogEmpty(cfg: Config, store: Store, prompt: PromptMethod, now: Instant)
    ensures Boot(cfg, store, prompt, now).log == []
  {
  }

  ghost predicate Positive(fs: seq<Failure>) { fs != [] ==> fs[0].count >= 1 }

  lemma {:induction false} RunsKeepTracking(cfg: Config, s: Sys, actions: seq<Action>, span: Span)
    requires Inv(cfg, s, span) && AdmitsAll(span, actions) && Positive(FailuresOf(s.log, span))
    ensures Inv(cfg, Runs(cfg, s, actions), span) && Positive(FailuresOf(Runs(cfg, s, actions).log, span))
    decreases |actions|
  {
    hide Inv, Next, Admits, FailuresOf;
    if actions != [] {
      var c := StepChanges(cfg, s, actions[0], span);
      RunsKeepTracking(cfg, Next(cfg, s, actions[0]), actions[1..], span);
    }
  }

  /** How a step changes the failures and who is in flight. */
  datatype Change = Kept | Recorded(tid: Tid) | Forgot

  ghost predicate Changes(s: Sys, t: Sys, span: Span, c: Change)
  {
    match c
    case Kept => FailuresOf(t.log, span) == FailuresOf(s.log, span)
                 && forall tid | tid in Flights(t.threads) ::
                      (tid in Flights(s.threads) && CheckedAt(t.threads[tid].pc) == CheckedAt(s.threads[tid].pc))
                      || (CheckedAt(t.threads[tid].pc) == Some(s.now) && Passes(s.daemon.svc, s.now))
    case Recorded(tid) => FailuresOf(t.log, span)
                          == FailuresOf(s.log, span) + [Failure(s.now, s.daemon.svc.attempts + 1)]
                          && tid in Flights(s.threads) && tid !in Flights(t.threads)
                          && forall u | u in Flights(t.threads) ::
                               u in Flights(s.threads) && CheckedAt(t.threads[u].pc) == CheckedAt(s.threads[u].pc)
    case Forgot => FailuresOf(t.log, span) == []
  }

  lemma StepTracked(cfg: Config, s: Sys, a: Action, span: Span)
    requires Tracked(cfg, s, span) && Admits(span, a)
    ensures Tracked(cfg, Next(cfg, s, a), span)
  {
    hide Next, Durable.Inv;
    StepFrame(cfg, s, a);
    if span.AcrossRestarts? {
      Durable.StepMirrored(cfg, s, a);
    }
  }

  lemma StepChanges(cfg: Config, s: Sys, a: Action, span: Span) returns (c: Change)
    requires Inv(cfg, s, span) && Admits(span, a)
    ensures Inv(cfg, Next(cfg, s, a), span) && Changes(s, Next(cfg, s, a), span, c)
  {
    hide Exec, FailuresOf, Sound, AutoLock, Tracked;
    Residency.StepSound(cfg, s, a);
    StepTracked(cfg, s, a, span);
    var t := Next(cfg, s, a);
    c := Kept;
    match a
    case Run(tid, env) =>
      if tid in s.threads {
        c := RunChanges(cfg, s, tid, env, span);
      }
    case AutoLockTick =>
      AutoLockKeepsBackoff(s.now, s.daemon, s.draws);
      QuietFailures(s.log, AutoLock(s.now, s.daemon, s.draws).events, span);
    case Restart(readable) => c := RestartChanges(cfg, s, readable, span);
    case _ =>
  }

  lemma RestartOnLog(log: seq<Event>, span: Span)
    ensures FailuresOf(log + [Restarted], span) == if span.OneProcess? then [] else FailuresOf(log, span)
  {
    assert (log + [Restarted])[..|log|] == log;
  }

  lemma NobodyFlies(threads: map<Tid, Thread>)
    requires forall tid | tid in threads :: threads[tid].pc.Done?
    ensures Flights(threads) == {}
  {
  }

  /** A restart forgets the failures, as far as one process goes; across restarts it
      keeps them, and the time of the last one to within a second. */
  lemma RestartChanges(cfg: Config, s: Sys, readable: Reads, span: Span) returns (c: Change)
    requires Inv(cfg, s, span) && Admits(span, Restart(readable)) && Tracked(cfg, Next(cfg, s, Restart(readable)), span)
    ensures Inv(cfg, Next(cfg, s, Restart(readable)), span) && Changes(s, Next(cfg, s, Restart(readable)), span, c)
  {
    hide FailuresOf, Sound, Start;
    Residency.StepSound(cfg, s, Restart(readable));
    RestartOnLog(s.log, span);
    var t := Next(cfg, s, Restart(readable));
    NobodyFlies(t.threads);
    c := if span.OneProcess? then Forgot else Kept;
    var fs := FailuresOf(s.log, span);
    if span.AcrossRestarts? && fs != [] {
      RestartRemembers(cfg, s, readable, span, fs[|fs| - 1].at);
    }
  }

  lemma RestartRemembers(cfg: Config, s: Sys, readable: Reads, span: Span, at: Instant)
    requires readable.Fine() && span.AcrossRestarts? && Tracked(cfg, s, span) && at <= s.now
    requires Remembers(cfg, span, s.daemon.svc.lastAttempt, at)
    ensures var t := Next(cfg, s, Restart(readable)).daemon.svc;
            t.attempts == s.daemon.svc.attempts && Remembers(cfg, span, t.lastAttempt, at)
  {
    hide Next, Durable.Mirrored, Sound;
    Durable.RestartRefinesLock(cfg, s, readable);
    Durable.RestartKeepsLastAttempt(cfg, s, readable);
    SameSecond(cfg, s.now, at);
    Durable.LastAttemptIsPast(cfg, s);
    Durable.EpochGrows(s.daemon.svc.lastAttempt.value, s.now, cfg.offset);
    Durable.RestoredEpoch(EpochSeconds(at, cfg.offset), s.now, cfg.offset);
  }

  /** Where a restart puts an attempt, given only the second it fell in. */
  lemma SameSecond(cfg: Config, now: Instant, at: Instant)
    requires at <= now && at + cfg.offset >= 0
    ensures var moved := now - (EpochSeconds(now, cfg.offset) - EpochSeconds(at, cfg.offset)) * SECOND;
            at - SECOND < moved
  {
    Durable.FloorShift(now + cfg.offset, at + cfg.offset);
  }

  lemma AutoLockKeepsBackoff(now: Instant, d: Daemon, draws: nat)
    ensures var o := AutoLock(now, d, draws);
            Quiet(o.events) && o.daemon.svc.attempts == d.svc.attempts && o.daemon.svc.lastAttempt == d.svc.lastAttempt
  {
  }

  lemma RunChanges(cfg: Config, s: Sys, tid: Tid, env: Env, span: Span) returns (c: Change)
    requires Inv(cfg, s, span) && tid in s.threads && Tracked(cfg, Next(cfg, s, Run(tid, env)), span)
    ensures Inv(cfg, Next(cfg, s, Run(tid, env)), span) && Changes(s, Next(cfg, s, Run(tid, env)), span, c)
  {
    hide Exec, FailuresOf, Sound, Tracked, Wrong, Right;
    Residency.StepSound(cfg, s, Run(tid, env));
    var th := s.threads[tid];
    var o := Exec(cfg, s.now, tid, th, s.daemon, s.draws, env);
    var t := Next(cfg, s, Run(tid, env));
    AnyBackoff(cfg, s.now, tid, th, s.daemon, s.draws, env);
    if Wrong(cfg, th, s.daemon, env) {
      RecordedChanges(cfg, s, t, tid, env.files, o, span);
      c := Recorded(tid);
    } else if Right(cfg, th, s.daemon, env) {
      ResetForgets(s.log, o.events, span);
      FlightsAfter(s, t, tid, o);
      c := Forgot;
    } else {
      KeptChanges(cfg, s, t, tid, o, span);
      c := Kept;
    }
  }

  /** t is s after thread tid ran a section with outcome o. */
  ghost predicate Ran(s: Sys, t: Sys, tid: Tid, o: Out)
  {
    && tid in s.threads
    && t.now == s.now && t.daemon == o.daemon && t.log == s.log + o.events
    && t.threads == s.threads[tid := s.threads[tid].(pc := o.pc)]
  }

  /** Only the thread that ran can have entered or left the flights. */
  lemma FlightsAfter(s: Sys, t: Sys, tid: Tid, o: Out)
    requires Ran(s, t, tid, o)
    ensures forall u | u in Flights(t.threads) && u != tid ::
              u in Flights(s.threads) && CheckedAt(t.threads[u].pc) == CheckedAt(s.threads[u].pc)
    ensures tid in Flights(t.threads) <==> CheckedAt(o.pc).Some?
  {
  }

  lemma KeptChanges(cfg: Config, s: Sys, t: Sys, tid: Tid, o: Out, span: Span)
    requires Inv(cfg, s, span) && Residency.Inv(t) && Tracked(cfg, t, span) && Ran(s, t, tid, o)
    requires KeepsBackoff(s.threads[tid], s.daemon, s.now, o)
    ensures Inv(cfg, t, span) && Changes(s, t, span, Kept)
  {
    hide FailuresOf, Sound, Tracked;
    QuietFailures(s.log, o.events, span);
    FlightsAfter(s, t, tid, o);
  }

  lemma RecordedChanges(cfg: Config, s: Sys, t: Sys, tid: Tid, files: DiskIo, o: Out, span: Span)
    requires Inv(cfg, s, span) && Residency.Inv(t) && Tracked(cfg, t, span) && Ran(s, t, tid, o)
    requires RecordsFailure(cfg, s.threads[tid], s.daemon, s.now, files, o)
    ensures Inv(cfg, t, span) && Changes(s, t, span, Recorded(tid))
  {
    hide FailuresOf, Sound, Durable.Inv;
    RecordAppends(s.log, o.events, span);
    FlightsAfter(s, t, tid, o);
  }

  lemma RecordAppends(log: seq<Event>, es: seq<Event>, span: Span)
    requires |es| > 0 && es[|es| - 1].RecordedFailure? && Quiet(es[..|es| - 1])
    ensures FailuresOf(log + es, span) == FailuresOf(log, span) + [Failure(es[|es| - 1].at, es[|es| - 1].count)]
  {
    var n := |es| - 1;
    QuietFailures(log, es[..n], span);
    assert (log + es)[..|log + es| - 1] == log + es[..n];
  }

  /** Passing the check means having waited, but for what a restart costs. */
  lemma PassesMeansWaited(cfg: Config, s: Svc, span: Span, at: Instant, now: Instant)
    requires Remembers(cfg, span, s.lastAttempt, at) && at <= now && Passes(s, now)
    ensures now >= at + Delay(s.attempts) * SECOND - Slack(span)
  {
    DelayTable(s.attempts);
  }

  /** The seconds left are what is left of the delay, rounded up: the check passes
      exactly when at least the delay has gone by since the last failure. */
  lemma PassesIff(s: Svc, now: Instant)
    ensures s.lastAttempt.None? ==> Passes(s, now)
    ensures s.lastAttempt.Some? && s.lastAttempt.value <= now ==>
              var end := s.lastAttempt.value + Delay(s.attempts) * SECOND;
              && (Passes(s, now) <==> now >= end)
              && (!Passes(s, now) ==>
                    var left := BackoffRemaining(s, now); (left - 1) * SECOND < end - now <= left * SECOND)
  {
    DelayTable(s.attempts);
  }

  /** All four requests are turned away at their check exactly while the delay of the
      last failure lasts, and otherwise go on to try a password. */
  lemma CheckedIff(cfg: Config, now: Instant, tid: Tid, th: Thread, d: Daemon, draws: nat, env: Env)
    requires th.pc.LoginCheck? || th.pc.UnlockCheck? || th.pc.AuthorizeCheck? || th.pc.AgentBackoff?
    requires d.svc.lastAttempt.Some? ==> d.svc.lastAttempt.value <= now
    requires th.pc.AuthorizeCheck? ==> !d.svc.status.LoggedOut?
    ensures var o := Exec(cfg, now, tid, th, d, draws, env);
            var waiting := d.svc.lastAttempt.Some?
                           && now < d.svc.lastAttempt.value + Delay(d.svc.attempts) * SECOND;
            && o.daemon == d && (waiting <==> o.pc == Done(BackoffError))
            && (!waiting <==> CheckedAt(o.pc) == Some(now))
  {
    hide BackoffRemaining, Unlock, Delay;
    PassesIff(d.svc, now);
  }

  // --- At most k failures per window ---

  /** Failures from the i-th on that fall in the window it opens. */
  function InWindow(fs: seq<Failure>, span: Span, i: nat): set<nat>
    requires i < |fs|
  {
    set j: nat | i <= j < |fs| && fs[j].at < fs[i].at + Window(span)
  }

  ghost predicate WindowOk(fs: seq<Failure>, span: Span, threads: map<Tid, Thread>, i: nat, k: nat)
    requires i < |fs|
  {
    |InWindow(fs, span, i)| + |FlightsBefore(threads, fs[i].at + Window(span))| <= k
  }

  ghost predicate WindowsOk(s: Sys, span: Span, k: nat)
  {
    var fs := FailuresOf(s.log, span);
    forall i | 0 <= i < |fs| && fs[i].count >= CAPPED_FROM :: WindowOk(fs, span, s.threads, i, k)
  }

  lemma SubsetSize<T>(a: set<T>, b: set<T>)
    requires a <= b
    ensures |a| <= |b|
  {
    assert b == a + (b - a);
  }

  lemma KeptWindow(cfg: Config, s: Sys, t: Sys, span: Span, i: nat, k: nat)
    requires Inv(cfg, s, span) && Inv(cfg, t, span) && Changes(s, t, span, Kept)
    requires i < |FailuresOf(s.log, span)| && FailuresOf(s.log, span)[i].count >= CAPPED_FROM
    requires WindowOk(FailuresOf(s.log, span), span, s.threads, i, k)
    ensures WindowOk(FailuresOf(t.log, span), span, t.threads, i, k)
  {
    hide FailuresOf, Sound, Tracked, Remembers;
    var fs := FailuresOf(s.log, span);
    var last := fs[|fs| - 1];
    var end := fs[i].at + Window(span);
    forall tid | tid in FlightsBefore(t.threads, end) ensures tid in FlightsBefore(s.threads, end) {
      assert tid in Flights(t.threads);
      if CheckedAt(t.threads[tid].pc) == Some(s.now) && Passes(s.daemon.svc, s.now) {
        PassesMeansWaited(cfg, s.daemon.svc, span, last.at, s.now);
        DelayTable(s.daemon.svc.attempts);
      }
    }
    SubsetSize(FlightsBefore(t.threads, end), FlightsBefore(s.threads, end));
  }

  lemma RecordedWindow(cfg: Config, s: Sys, t: Sys, span: Span, tid: Tid, i: nat, k: nat)
    requires Inv(cfg, s, span) && Inv(cfg, t, span) && Changes(s, t, span, Recorded(tid))
    requires |Flights(s.threads)| <= k
    requires i < |FailuresOf(t.log, span)|
    requires i < |FailuresOf(s.log, span)| ==> WindowOk(FailuresOf(s.log, span), span, s.threads, i, k)
    ensures WindowOk(FailuresOf(t.log, span), span, t.threads, i, k)
  {
    hide FailuresOf, Sound, Tracked, Remembers;
    var fs, gs := FailuresOf(s.log, span), FailuresOf(t.log, span);
    var end := gs[i].at + Window(span);
    WindowAfter(fs, gs, span, i, s.now, s.daemon.svc.attempts + 1);
    FlightLanded(cfg, s, t, span, tid, end);
    if i < |fs| {
      assert fs[i] == gs[i];
    } else {
      SubsetSize(FlightsBefore(t.threads, end), Flights(t.threads));
      SubsetSize(Flights(t.threads), Flights(s.threads) - {tid});
    }
  }

  lemma WindowAfter(fs: seq<Failure>, gs: seq<Failure>, span: Span, i: nat, now: Instant, count: nat)
    requires gs == fs + [Failure(now, count)] && i < |gs|
    ensures i < |fs| ==>
              |InWindow(gs, span, i)| == |InWindow(fs, span, i)| + if now < gs[i].at + Window(span) then 1 else 0
    ensures i == |fs| ==> |InWindow(gs, span, i)| == 1
  {
    hide Window;
    var n := |fs|;
    if i == n {
      FreshWindow(gs, span);
    } else {
      GrownWindow(fs, gs, span, i, now, count);
      assert n !in InWindow(fs, span, i);
    }
  }

  lemma FreshWindow(gs: seq<Failure>, span: Span)
    requires |gs| > 0
    ensures InWindow(gs, span, |gs| - 1) == {|gs| - 1}
  {
  }

  lemma GrownWindow(fs: seq<Failure>, gs: seq<Failure>, span: Span, i: nat, now: Instant, count: nat)
    requires gs == fs + [Failure(now, count)] && i < |fs|
    ensures InWindow(gs, span, i) == InWindow(fs, span, i) + if now < gs[i].at + Window(span) then {|fs|} else {}
  {
    hide Window;
  }

  /** The thread that recorded leaves the flights that took off before `end`. */
  lemma FlightLanded(cfg: Config, s: Sys, t: Sys, span: Span, tid: Tid, end: Instant)
    requires Inv(cfg, s, span) && Changes(s, t, span, Recorded(tid))
    ensures |FlightsBefore(t.threads, end)| + (if s.now < end then 1 else 0) <= |FlightsBefore(s.threads, end)|
  {
    hide FailuresOf, Sound, Ordered, Tracked, Remembers;
    var before, after := FlightsBefore(s.threads, end), FlightsBefore(t.threads, end);
    forall u | u in after ensures u in before && u != tid {
      assert u in Flights(t.threads);
    }
    if s.now < end {
      assert tid in before;
      SubsetSize(after, before - {tid});
    } else {
      SubsetSize(after, before);
    }
  }

  lemma StepKeepsWindows(cfg: Config, s: Sys, a: Action, span: Span, k: nat)
    requires Inv(cfg, s, span) && Admits(span, a) && WindowsOk(s, span, k) && |Flights(s.threads)| <= k
    ensures Inv(cfg, Next(cfg, s, a), span) && WindowsOk(Next(cfg, s, a), span, k)
  {
    hide FailuresOf, Sound, Next, Inv, WindowOk;
    var c := StepChanges(cfg, s, a, span);
    var t := Next(cfg, s, a);
    var gs := FailuresOf(t.log, span);
    forall i | 0 <= i < |gs| && gs[i].count >= CAPPED_FROM ensures WindowOk(gs, span, t.threads, i, k) {
      if c.Kept? {
        KeptWindow(cfg, s, t, span, i, k);
      } else {
        RecordedWindow(cfg, s, t, span, c.tid, i, k);
      }
    }
  }

  lemma {:induction false} RunsKeepWindows(cfg: Config, s: Sys, actions: seq<Action>, span: Span, k: nat)
    requires Inv(cfg, s, span) && AdmitsAll(span, actions) && WindowsOk(s, span, k) && Bounded(cfg, s, actions, k)
    ensures Inv(cfg, Runs(cfg, s, actions), span) && WindowsOk(Runs(cfg, s, actions), span, k)
    decreases |actions|
  {
    hide Inv, WindowsOk, Next, Admits;
    if actions != [] {
      StepKeepsWindows(cfg, s, actions[0], span, k);
      RunsKeepWindows(cfg, Next(cfg, s, actions[0]), actions[1..], span, k);
    }
  }

  /** The state a run is followed from. */
  ghost predicate Starts(cfg: Config, store: Store, now: Instant, span: Span)
  {
    span.AcrossRestarts? ==> Durable.Consistent(cfg, store, now) && ClocksReach(cfg, now) && span.start == now
  }

  lemma BootInv(cfg: Config, store: Store, prompt: PromptMethod, now: Instant, span: Span)
    requires Starts(cfg, store, now, span)
    ensures Inv(cfg, Boot(cfg, store, prompt, now), span)
    ensures FailuresOf(Boot(cfg, store, prompt, now).log, span) == []
  {
    hide Durable.Mirrored, Durable.Consistent, Start;
    Residency.KeyResidency(cfg, store, prompt, now, []);
    if span.AcrossRestarts? {
      Durable.StartMirrored(cfg, store, prompt, now);
    }
  }

  function FailuresWithin(fs: seq<Failure>, span: Span, w: Instant): set<nat>
  {
    set j: nat | j < |fs| && fs[j].count >= CAPPED_FROM && w <= fs[j].at < w + Window(span)
  }

  lemma WindowsBound(cfg: Config, store: Store, prompt: PromptMethod, now: Instant, actions: seq<Action>, span: Span,
                     k: nat, w: Instant)
    requires Starts(cfg, store, now, span) && AdmitsAll(span, actions)
    requires Bounded(cfg, Boot(cfg, store, prompt, now), actions, k)
    ensures |FailuresWithin(FailuresOf(Runs(cfg, Boot(cfg, store, prompt, now), actions).log, span), span, w)| <= k
  {
    hide Starts;
    BootInv(cfg, store, prompt, now, span);
    RunsKeepWindows(cfg, Boot(cfg, store, prompt, now), actions, span, k);
    var s := Runs(cfg, Boot(cfg, store, prompt, now), actions);
    var fs := FailuresOf(s.log, span);
    if FailuresWithin(fs, span, w) != {} {
      var i := FirstWithin(fs, span, w, 0);
      assert FailuresWithin(fs, span, w) <= InWindow(fs, span, i);
      SubsetSize(FailuresWithin(fs, span, w), InWindow(fs, span, i));
      assert WindowOk(fs, span, s.threads, i, k);
    }
  }

  /** The seventh wrong password and those after it are among the failures counted
      seven or higher. */
  lemma RefusedWithin(rs: seq<Instant>, fs: seq<Failure>, span: Span, w: Instant)
    requires |rs| == |fs| && forall i | 0 <= i < |rs| :: rs[i] == fs[i].at && fs[i].count >= i + 1
    ensures |set j: nat | 6 <= j < |rs| && w <= rs[j] < w + Window(span)| <= |FailuresWithin(fs, span, w)|
  {
    hide Window;
    var within := set j: nat | 6 <= j < |rs| && w <= rs[j] < w + Window(span);
    SubsetSize(within, FailuresWithin(fs, span, w));
  }

  /** With at most k requests between their check and their record at any time: of
      the passwords that were wrong since the last right one, no half-open window of
      30 seconds, wherever it starts, holds more than k from the seventh on. So it is
      of the failures one process has counted. */
  lemma BackoffUnderConcurrency(cfg: Config, store: Store, prompt: PromptMethod, now: Instant, actions: seq<Action>,
                                k: nat, w: Instant)
    requires Bounded(cfg, Boot(cfg, store, prompt, now), actions, k)
    ensures var rs := RefusedTimes(cfg, Boot(cfg, store, prompt, now), actions, OneProcess);
            |set j: nat | 6 <= j < |rs| && w <= rs[j] < w + 30 * SECOND| <= k
    ensures var fs := FailuresOf(Runs(cfg, Boot(cfg, store, prompt, now), actions).log, OneProcess);
            |set j: nat | j < |fs| && fs[j].count >= CAPPED_FROM && w <= fs[j].at < w + 30 * SECOND| <= k
  {
    hide Bounded, Runs, Boot, FailuresOf, RefusedTimes;
    RefusalsCounted(cfg, store, prompt, now, actions, OneProcess);
    RefusedWithin(RefusedTimes(cfg, Boot(cfg, store, prompt, now), actions, OneProcess),
                  FailuresOf(Runs(cfg, Boot(cfg, store, prompt, now), actions).log, OneProcess), OneProcess, w);
    WindowsBound(cfg, store, prompt, now, actions, OneProcess, k, w);
    var fs := FailuresOf(Runs(cfg, Boot(cfg, store, prompt, now), actions).log, OneProcess);
    assert FailuresWithin(fs, OneProcess, w)
        == set j: nat | j < |fs| && fs[j].count >= CAPPED_FROM && w <= fs[j].at < w + 30 * SECOND;
  }

  /** The same across any number of restarts, which is what the backoff file is for:
      with working files and clocks, no window of 29 seconds holds more than k,
      whichever processes counted them. The missing second is the file's. */
  lemma BackoffAcrossRestarts(cfg: Config, store: Store, prompt: PromptMethod, now: Instant, actions: seq<Action>,
                              k: nat, w: Instant)
    requires Durable.Consistent(cfg, store, now) && ClocksReach(cfg, now) && Durable.AllDiskOk(actions)
    requires Bounded(cfg, Boot(cfg, store, prompt, now), actions, k)
    ensures var rs := RefusedTimes(cfg, Boot(cfg, store, prompt, now), actions, AcrossRestarts(now));
            |set j: nat | 6 <= j < |rs| && w <= rs[j] < w + 29 * SECOND| <= k
    ensures var fs := FailuresOf(Runs(cfg, Boot(cfg, store, prompt, now), actions).log, AcrossRestarts(now));
            |set j: nat | j < |fs| && fs[j].count >= CAPPED_FROM && w <= fs[j].at < w + 29 * SECOND| <= k
  {
    hide Bounded, Durable.Consistent, Durable.DiskOk, Runs, Boot, FailuresOf, RefusedTimes;
    RefusalsCounted(cfg, store, prompt, now, actions, AcrossRestarts(now));
    RefusedWithin(RefusedTimes(cfg, Boot(cfg, store, prompt, now), actions, AcrossRestarts(now)),
                  FailuresOf(Runs(cfg, Boot(cfg, store, prompt, now), actions).log, AcrossRestarts(now)),
                  AcrossRestarts(now), w);
    WindowsBound(cfg, store, prompt, now, actions, AcrossRestarts(now), k, w);
    var fs := FailuresOf(Runs(cfg, Boot(cfg, store, prompt, now), actions).log, AcrossRestarts(now));
    assert FailuresWithin(fs, AcrossRestarts(now), w)
        == set j: nat | j < |fs| && fs[j].count >= CAPPED_FROM && w <= fs[j].at < w + 29 * SECOND;
  }

  lemma FirstWithin(fs: seq<Failure>, span: Span, w: Instant, from: nat) returns (i: nat)
    requires FailuresWithin(fs, span, w) != {}
    requires from <= |fs| && forall j | j in FailuresWithin(fs, span, w) :: from <= j
    ensures i in FailuresWithin(fs, span, w) && forall j | j in FailuresWithin(fs, span, w) :: i <= j
    decreases |fs| - from
  {
    if from in FailuresWithin(fs, span, w) {
      i := from;
    } else {
      var some :| some in FailuresWithin(fs, span, w);
      i := FirstWithin(fs, span, w, from + 1);
    }
  }

  // --- One request at a time ---

  /** Each failure waits out the delay its predecessor imposed, but for the slack. */
  ghost predicate Spaced(s: Sys, span: Span)
  {
    var fs := FailuresOf(s.log, span);
    && (forall i | 0 <= i < |fs| - 1 :: fs[i + 1].at >= fs[i].at + Delay(fs[i].count) * SECOND - Slack(span))
    && (fs != [] ==> forall tid | tid in Flights(s.threads) ::
          CheckedAt(s.threads[tid].pc).value >= fs[|fs| - 1].at + Delay(fs[|fs| - 1].count) * SECOND - Slack(span))
  }

  lemma KeptSpacing(cfg: Config, s: Sys, t: Sys, span: Span)
    requires Inv(cfg, s, span) && Spaced(s, span) && Changes(s, t, span, Kept)
    ensures Spaced(t, span)
  {
    hide FailuresOf, Sound, Tracked, Remembers, Delay;
    var fs := FailuresOf(s.log, span);
    if fs != [] {
      forall tid | tid in Flights(t.threads)
        ensures CheckedAt(t.threads[tid].pc).value
             >= fs[|fs| - 1].at + Delay(fs[|fs| - 1].count) * SECOND - Slack(span)
      {
        if CheckedAt(t.threads[tid].pc) == Some(s.now) && Passes(s.daemon.svc, s.now) {
          PassesMeansWaited(cfg, s.daemon.svc, span, fs[|fs| - 1].at, s.now);
        }
      }
    }
  }

  /** The one request in flight lands: it had waited, and nobody else is up. */
  lemma RecordedSpacing(cfg: Config, s: Sys, t: Sys, span: Span, tid: Tid)
    requires Inv(cfg, s, span) && Spaced(s, span) && Changes(s, t, span, Recorded(tid)) && |Flights(s.threads)| <= 1
    ensures Spaced(t, span)
  {
    hide FailuresOf, Sound, Tracked, Remembers, Delay, Ordered, Slack;
    var up := Flights(t.threads) + {tid};
    assert forall u | u in up :: u in Flights(s.threads);
    SubsetSize(up, Flights(s.threads));
    assert |up| == |Flights(t.threads)| + 1;
    assert CheckedAt(s.threads[tid].pc).value <= s.now;
  }

  lemma StepKeepsSpacing(cfg: Config, s: Sys, a: Action, span: Span)
    requires Inv(cfg, s, span) && Admits(span, a) && Spaced(s, span) && |Flights(s.threads)| <= 1
    ensures Inv(cfg, Next(cfg, s, a), span) && Spaced(Next(cfg, s, a), span)
  {
    hide FailuresOf, Next, Inv, Delay;
    var c := StepChanges(cfg, s, a, span);
    match c
    case Kept => KeptSpacing(cfg, s, Next(cfg, s, a), span);
    case Recorded(tid) => RecordedSpacing(cfg, s, Next(cfg, s, a), span, tid);
    case Forgot =>
  }

  lemma {:induction false} RunsKeepSpacing(cfg: Config, s: Sys, actions: seq<Action>, span: Span)
    requires Inv(cfg, s, span) && AdmitsAll(span, actions) && Spaced(s, span) && Bounded(cfg, s, actions, 1)
    ensures Inv(cfg, Runs(cfg, s, actions), span) && Spaced(Runs(cfg, s, actions), span)
    decreases |actions|
  {
    hide Inv, Spaced, Next, Admits;
    if actions != [] {
      StepKeepsSpacing(cfg, s, actions[0], span);
      RunsKeepSpacing(cfg, Next(cfg, s, actions[0]), actions[1..], span);
    }
  }

  lemma DelayGrows(m: nat, n: nat)
    requires m <= n
    ensures Delay(m) <= Delay(n)
  {
    DelayTable(m);
    DelayTable(n);
  }

  lemma {:induction false} SpacingAddsUp(fs: seq<Failure>, slack: nat, n: nat)
    requires 1 <= n <= |fs|
    requires forall i | 0 <= i < |fs| :: fs[i].count >= i + 1
    requires forall i | 0 <= i < |fs| - 1 :: fs[i + 1].at >= fs[i].at + Delay(fs[i].count) * SECOND - slack
    ensures fs[n - 1].at >= fs[0].at + TotalDelay(n) * SECOND - (n - 1) * slack
  {
    hide Delay;
    if n > 1 {
      SpacingAddsUp(fs, slack, n - 1);
      DelayGrows(n - 1, fs[n - 2].count);
      assert TotalDelay(n) * SECOND == TotalDelay(n - 1) * SECOND + Delay(n - 1) * SECOND;
      assert (n - 1) * slack == (n - 2) * slack + slack;
      assert fs[n - 1].at >= fs[n - 2].at + Delay(n - 1) * SECOND - slack;
    }
  }

  lemma SpacedFailures(cfg: Config, store: Store, prompt: PromptMethod, now: Instant, actions: seq<Action>, span: Span,
                       n: nat)
    requires Starts(cfg, store, now, span) && AdmitsAll(span, actions)
    requires Bounded(cfg, Boot(cfg, store, prompt, now), actions, 1)
    requires 1 <= n <= |RefusedTimes(cfg, Boot(cfg, store, prompt, now), actions, span)|
    ensures var fs := FailuresOf(Runs(cfg, Boot(cfg, store, prompt, now), actions).log, span);
            var rs := RefusedTimes(cfg, Boot(cfg, store, prompt, now), actions, span);
            && |rs| == |fs| && (forall i | 0 <= i < |rs| :: rs[i] == fs[i].at)
            && fs[n - 1].count >= n && (fs[0].count == 1 ==> fs[n - 1].count == n)
            && rs[n - 1] >= rs[0] + TotalDelay(n) * SECOND - (n - 1) * Slack(span)
  {
    hide Starts, FailuresOf, RefusedTimes, Boot, Bounded, Sound;
    BootInv(cfg, store, prompt, now, span);
    RefusalsCounted(cfg, store, prompt, now, actions, span);
    RunsKeepSpacing(cfg, Boot(cfg, store, prompt, now), actions, span);
    SpacingAddsUp(FailuresOf(Runs(cfg, Boot(cfg, store, prompt, now), actions).log, span), Slack(span), n);
  }

  /** When requests never overlap, the n-th wrong password in a row comes at least the
      sum of the first n - 1 delays after the first one: 30n - 179 seconds once n has
      reached seven. */
  lemma SequentialBackoff(cfg: Config, store: Store, prompt: PromptMethod, now: Instant, actions: seq<Action>, n: nat)
    requires Bounded(cfg, Boot(cfg, store, prompt, now), actions, 1)
    requires 1 <= n <= |RefusedTimes(cfg, Boot(cfg, store, prompt, now), actions, OneProcess)|
    ensures var rs := RefusedTimes(cfg, Boot(cfg, store, prompt, now), actions, OneProcess);
            && rs[n - 1] >= rs[0] + TotalDelay(n) * SECOND
            && (n >= CAPPED_FROM ==> rs[n - 1] >= rs[0] + (30 * n - 179) * SECOND)
    ensures var fs := FailuresOf(Runs(cfg, Boot(cfg, store, prompt, now), actions).log, OneProcess);
            var rs := RefusedTimes(cfg, Boot(cfg, store, prompt, now), actions, OneProcess);
            && |rs| == |fs| && (forall i | 0 <= i < |rs| :: rs[i] == fs[i].at)
            && (fs[0].count == 1 ==> fs[n - 1].count == n)
  {
    hide FailuresOf, Bounded, RefusedTimes;
    SpacedFailures(cfg, store, prompt, now, actions, OneProcess, n);
    if n >= CAPPED_FROM {
      TotalDelayClosedForm(n);
    }
  }

  lemma SecondsLess(a: int, b: int)
    ensures (a - b) * SECOND == a * SECOND - b * SECOND
  {
  }

  /** Across restarts, with working files and clocks, at most a second is lost per
      failure: 29n - 178 seconds once n has reached seven. */
  lemma SequentialBackoffAcrossRestarts(cfg: Config, store: Store, prompt: PromptMethod, now: Instant,
                                        actions: seq<Action>, n: nat)
    requires Durable.Consistent(cfg, store, now) && ClocksReach(cfg, now) && Durable.AllDiskOk(actions)
    requires Bounded(cfg, Boot(cfg, store, prompt, now), actions, 1)
    requires 1 <= n <= |RefusedTimes(cfg, Boot(cfg, store, prompt, now), actions, AcrossRestarts(now))|
    ensures var rs := RefusedTimes(cfg, Boot(cfg, store, prompt, now), actions, AcrossRestarts(now));
            && rs[n - 1] >= rs[0] + (TotalDelay(n) - (n - 1)) * SECOND
            && (n >= CAPPED_FROM ==> rs[n - 1] >= rs[0] + (29 * n - 178) * SECOND)
    ensures var fs := FailuresOf(Runs(cfg, Boot(cfg, store, prompt, now), actions).log, AcrossRestarts(now));
            var rs := RefusedTimes(cfg, Boot(cfg, store, prompt, now), actions, AcrossRestarts(now));
            && |rs| == |fs| && (forall i | 0 <= i < |rs| :: rs[i] == fs[i].at)
            && (fs[0].count == 1 ==> fs[n - 1].count == n)
  {
    hide FailuresOf, Bounded, Durable.Consistent, Durable.DiskOk, RefusedTimes, Runs, Boot, TotalDelay, Delay;
    SpacedFailures(cfg, store, prompt, now, actions, AcrossRestarts(now), n);
    SecondsLess(TotalDelay(n), n - 1);
    if n >= CAPPED_FROM {
      TotalDelayClosedForm(n);
    }
  }

  /** The approval flow's password prompt is outside all this: it neither reads
      nor writes the failure count, whatever the count is. */
  lemma ApprovalPasswordIgnoresBackoff(cfg: Config, now: Instant, tid: Tid, th: Thread, d: Daemon, draws: nat, env: Env,
                                       count: nat, last: Option<Instant>)
    requires th.pc.ApprovalPasswordPrompt? || th.pc.ApprovalPasswordVerify?
    ensures var o := Exec(cfg, now, tid, th, d, draws, env);
            var p := Exec(cfg, now, tid, th, d.(svc := d.svc.(attempts := count, lastAttempt := last)), draws, env);
            && p.pc == o.pc && p.events == o.events
            && p.daemon.svc == o.daemon.svc.(attempts := count, lastAttempt := last)
            && o.daemon.store == d.store
  {
  }
}
