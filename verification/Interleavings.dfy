/** Two invariants that one would expect of the state and that interleaving
    breaks: exactly which steps break them. */
module Interleavings {
  import opened Base
  import opened Envelope
  import opened VaultCaches
  import opened Service
  import opened Machine
  import opened Witnesses
  import Residency

  /** No grant is in the cache while the vault is not unlocked. */
  predicate NoIdleGrants(s: Svc) { !s.status.Unlocked? ==> s.grants == map[] }

  /** No sync time is remembered while nobody is logged in. */
  predicate NoIdleSync(s: Svc) { s.status.LoggedOut? ==> s.lastSync.None? }

  predicate Tidy(s: Svc) { NoIdleGrants(s) && NoIdleSync(s) }

  predicate LateGrant(th: Thread, s: Svc)
  {
    (th.pc.ApprovalGrant? || th.pc.AuthorizeGrant?) && !s.status.Unlocked?
  }

  predicate LateStamp(th: Thread, s: Svc) { th.pc.StampSync? && s.status.LoggedOut? }

  /** A section spoils one of the two exactly when it is such a late step. */
  predicate SpoilsOnlyLate(th: Thread, before: Svc, after: Svc)
  {
    (NoIdleGrants(after) <==> !LateGrant(th, before)) && (NoIdleSync(after) <==> !LateStamp(th, before))
  }

  lemma GrantLeavesSome(s: Svc, key: U32, now: Instant)
    ensures Grant(s, key, now).grants != map[]
  {
    assert key in Grant(s, key, now).grants;
  }

  lemma GateTidy(cfg: Config, now: Instant, tid: Tid, th: Thread, d: Daemon, draws: nat)
    requires th.pc.GateTouch? || th.pc.GateState? || th.pc.GateResolve? || th.pc.GateCheck?
    requires Tidy(d.svc)
    ensures SpoilsOnlyLate(th, d.svc, ExecGate(cfg, now, tid, th, d, draws).daemon.svc)
  {
  }

  lemma ApprovalTidy(cfg: Config, now: Instant, tid: Tid, th: Thread, d: Daemon, draws: nat, env: Env)
    requires IsApproval(th.pc) && Tidy(d.svc)
    ensures SpoilsOnlyLate(th, d.svc, ExecApproval(cfg, now, tid, th, d, draws, env).daemon.svc)
  {
    if th.pc.ApprovalGrant? {
      GrantLeavesSome(d.svc, th.pc.key, now);
    }
  }

  /** An unlock that fails leaves the status alone; one that succeeds unlocks. */
  lemma UnlockTidy(c: Crypto, d: Daemon, password: Password, io: UnlockInputs)
    requires Sound(d.svc) && Tidy(d.svc)
    ensures Tidy(Unlock(c, d, password, io).after.svc)
    ensures Unlock(c, d, password, io).result.Ok? ==> Unlock(c, d, password, io).after.svc.status.Unlocked?
  {
    hide Unlock;
    UnlockSound(c, d, password, io);
    if Unlock(c, d, password, io).result.Err? {
      FailedUnlockLeavesNoTrace(c, d, password, io);
    }
  }

  lemma AgentTidy(cfg: Config, now: Instant, tid: Tid, th: Thread, d: Daemon, draws: nat, env: Env)
    requires IsAgent(th.pc) && Sound(d.svc) && Tidy(d.svc)
    ensures SpoilsOnlyLate(th, d.svc, ExecAgent(cfg, now, tid, th, d, draws, env).daemon.svc)
  {
    hide Unlock;
    if th.pc.AgentUnlock? {
      UnlockTidy(cfg.crypto, d, th.pc.password, env.unlock.(now := now));
    }
  }

  lemma LoginTidy(cfg: Config, now: Instant, tid: Tid, th: Thread, d: Daemon, draws: nat, env: Env)
    requires IsLogin(th.pc) && Sound(d.svc) && Tidy(d.svc)
    ensures SpoilsOnlyLate(th, d.svc, ExecLogin(cfg, now, tid, th, d, draws, env).daemon.svc)
  {
    hide Unlock;
    if th.pc.UnlockRun? {
      UnlockTidy(cfg.crypto, d, th.pc.password, env.unlock.(now := now));
    }
  }

  lemma AuthorizeTidy(cfg: Config, now: Instant, tid: Tid, th: Thread, d: Daemon, draws: nat, env: Env)
    requires IsAuthorize(th.pc) && Sound(d.svc) && Tidy(d.svc)
    ensures SpoilsOnlyLate(th, d.svc, ExecAuthorize(cfg, now, tid, th, d, draws, env).daemon.svc)
  {
    hide Unlock;
    if th.pc.AuthorizeUnlock? {
      UnlockTidy(cfg.crypto, d, th.pc.password, env.unlock.(now := now));
    } else if th.pc.AuthorizeGrant? {
      GrantLeavesSome(d.svc, ResolvedKey(cfg, th.peer, draws), now);
    }
  }

  lemma SyncTidy(cfg: Config, now: Instant, th: Thread, d: Daemon, draws: nat, env: Env)
    requires IsSync(th.pc) && Tidy(d.svc)
    ensures SpoilsOnlyLate(th, d.svc, ExecSync(cfg, now, th, d, draws, env).daemon.svc)
  {
  }

  lemma OtherTidy(now: Instant, tid: Tid, th: Thread, d: Daemon, draws: nat, env: Env)
    requires !IsApproval(th.pc) && !IsAuthorize(th.pc) && !IsSync(th.pc) && Tidy(d.svc)
    ensures SpoilsOnlyLate(th, d.svc, ExecOther(now, tid, th, d, draws, env).daemon.svc)
  {
  }

  lemma SectionTidy(cfg: Config, now: Instant, tid: Tid, th: Thread, d: Daemon, draws: nat, env: Env)
    requires Sound(d.svc) && Tidy(d.svc)
    ensures SpoilsOnlyLate(th, d.svc, Exec(cfg, now, tid, th, d, draws, env).daemon.svc)
  {
    hide ExecGate, ExecApproval, ExecAgent, ExecLogin, ExecAuthorize, ExecSync, ExecOther, SpoilsOnlyLate;
    if IsAgent(th.pc) {
      AgentTidy(cfg, now, tid, th, d, draws, env);
    } else if IsLogin(th.pc) {
      LoginTidy(cfg, now, tid, th, d, draws, env);
    } else if IsAuthorize(th.pc) {
      AuthorizeTidy(cfg, now, tid, th, d, draws, env);
    } else if IsApproval(th.pc) {
      ApprovalTidy(cfg, now, tid, th, d, draws, env);
    } else if th.pc.GateTouch? || th.pc.GateState? || th.pc.GateResolve? || th.pc.GateCheck? {
      GateTidy(cfg, now, tid, th, d, draws);
    } else if IsSync(th.pc) {
      SyncTidy(cfg, now, th, d, draws, env);
    } else {
      OtherTidy(now, tid, th, d, draws, env);
    }
  }

  predicate Late(s: Sys, a: Action)
  {
    a.Run? && a.tid in s.threads
    && (LateGrant(s.threads[a.tid], s.daemon.svc) || LateStamp(s.threads[a.tid], s.daemon.svc))
  }

  /** From any tidy state, a step leaves a tidy state exactly when it is not the
      late half of an approval whose vault was locked meanwhile, nor of a sync
      whose user logged out meanwhile. */
  lemma UntidyIffLate(cfg: Config, s: Sys, a: Action)
    requires Residency.Inv(s) && Tidy(s.daemon.svc)
    ensures Tidy(Next(cfg, s, a).daemon.svc) <==> !Late(s, a)
  {
    hide Exec, Sound;
    if a.Run? && a.tid in s.threads {
      SectionTidy(cfg, s.now, a.tid, s.threads[a.tid], s.daemon, s.draws, a.env);
    }
  }

  /** No step of a run is a late one. */
  ghost predicate NeverLate(cfg: Config, s: Sys, actions: seq<Action>)
    decreases |actions|
  {
    actions != [] ==> !Late(s, actions[0]) && NeverLate(cfg, Next(cfg, s, actions[0]), actions[1..])
  }

  lemma {:induction false} TidyWithoutLateSteps(cfg: Config, s: Sys, actions: seq<Action>)
    requires Residency.Inv(s) && Tidy(s.daemon.svc) && NeverLate(cfg, s, actions)
    ensures Tidy(Runs(cfg, s, actions).daemon.svc)
    decreases |actions|
  {
    hide Next;
    if actions != [] {
      UntidyIffLate(cfg, s, actions[0]);
      Residency.StepSound(cfg, s, actions[0]);
      TidyWithoutLateSteps(cfg, Next(cfg, s, actions[0]), actions[1..]);
    }
  }

  // --- Both happen ---

  ghost function PlainConfig(): Config { Config(TellingCrypto(), pid => None, 100, 0, 0) }

  const NoHelp: Env :=
    Env(false, None, None, None,
        UnlockInputs(0, Readable, Absent, true, false, Granted(Pbkdf2(600_000), "uk", "pk", None), true,
                     seq(32, _ => 0), seq(24, _ => 0), true, None),
        Synced(None), true, DiskIo(Succeeds, Succeeds, true))

  lemma PlainUnlockSucceeds(d: Daemon)
    requires d.store.cache.None? && d.svc.status.Locked? && d.svc.sdk.Some? && d.svc.login.Some?
    ensures Unlock(PlainConfig().crypto, d, "p", NoHelp.unlock).result.Ok?
    ensures Unlock(PlainConfig().crypto, d, "p", NoHelp.unlock).after.svc.status.Unlocked?
  {
    hide BuildCache, Written, ReadBack;
  }

  lemma BeginRuns(cfg: Config, s: Sys, tid: Tid, peer: Option<U32>, pc: Pc)
    requires tid !in s.threads && IsEntry(pc)
    ensures Next(cfg, s, Begin(tid, peer, pc)) == s.(threads := s.threads[tid := Thread(peer, pc)])
  {
  }

  /** A locked account and nothing else. */
  lemma BootLocked(store: Store)
    requires store.login.Holds? && store.backoff.Missing? && store.cache.None?
    requires Short(store.login.value.email) && Short(store.login.value.serverUrl)
    ensures var s := Boot(PlainConfig(), store, Auto, 0);
            Openable(s) && s.threads == map[] && s.now == 0 && s.draws == 0 && s.log == [] && s.daemon.store == store
            && s.daemon.svc.login == Some(store.login.value)
  {
  }

  lemma CheckRuns(cfg: Config, s: Sys, tid: Tid, env: Env)
    requires tid in s.threads && s.threads[tid].pc.AuthorizeCheck?
    requires s.daemon.svc.status.Locked? && BackoffRemaining(s.daemon.svc, s.now) == 0
    ensures var th := s.threads[tid];
            var checked := th.(pc := AuthorizeBranch(th.pc.password, s.now));
            Next(cfg, s, Run(tid, env)) == s.(threads := s.threads[tid := checked])
  {
    hide Unlock;
  }

  lemma BranchRuns(cfg: Config, s: Sys, tid: Tid, env: Env)
    requires tid in s.threads && s.threads[tid].pc.AuthorizeBranch? && s.daemon.svc.status.Locked?
    ensures var th := s.threads[tid];
            var unlocking := th.(pc := AuthorizeUnlock(th.pc.password, th.pc.checkedAt));
            Next(cfg, s, Run(tid, env)) == s.(threads := s.threads[tid := unlocking])
  {
    hide Unlock;
  }

  lemma UnlockRuns(cfg: Config, s: Sys, tid: Tid, env: Env)
    requires tid in s.threads && s.threads[tid].pc.AuthorizeUnlock?
    requires var o := Unlock(cfg.crypto, s.daemon, s.threads[tid].pc.password, env.unlock.(now := s.now));
             o.result.Ok? && o.after.svc.status.Unlocked?
    ensures var t := Next(cfg, s, Run(tid, env));
            t.threads.Keys == s.threads.Keys && t.threads[tid].pc == AuthorizeGrant && t.daemon.svc.status.Unlocked?
  {
    hide Unlock, UnlockEvents;
  }

  lemma Unhindered(s: Sys)
    requires s.daemon.svc.attempts == 0
    ensures BackoffRemaining(s.daemon.svc, s.now) == 0
  {
  }

  /** A locked account, a request to authorise, and its unlock: all but the grant. */
  lemma AuthorizedUpToTheGrant() returns (store: Store, actions: seq<Action>)
    ensures var s := Runs(PlainConfig(), Boot(PlainConfig(), store, Auto, 0), actions);
            s.threads.Keys == {0} && s.threads[0].pc == AuthorizeGrant && s.daemon.svc.status.Unlocked?
  {
    hide Unlock, Next, Boot, PlainConfig, BackoffRemaining;
    var cfg := PlainConfig();
    store := Store(File.Holds(LoginState("a", "b")), Missing, None, None);
    var boot := Boot(cfg, store, Auto, 0);
    BootLocked(store);
    actions := [Begin(0, Some(100), AuthorizeCheck("p")), Run(0, NoHelp), Run(0, NoHelp), Run(0, NoHelp)];
    Unhindered(boot);
    BeginRuns(cfg, boot, 0, Some(100), AuthorizeCheck("p"));
    var s1 := Next(cfg, boot, actions[0]);
    CheckRuns(cfg, s1, 0, NoHelp);
    var s2 := Next(cfg, s1, actions[1]);
    BranchRuns(cfg, s2, 0, NoHelp);
    var s3 := Next(cfg, s2, actions[2]);
    PlainUnlockSucceeds(s3.daemon);
    UnlockRuns(cfg, s3, 0, NoHelp);
    var s4 := Next(cfg, s3, actions[3]);
    RunsSteps(cfg, boot, actions, [boot, s1, s2, s3, s4]);
  }

  lemma LockRuns(cfg: Config, s: Sys, other: Tid, env: Env) returns (t: Sys)
    requires other !in s.threads && s.daemon.svc.status.Unlocked?
    ensures t == Next(cfg, Next(cfg, s, Begin(other, None, LockNow)), Run(other, env))
    ensures t.daemon.svc.status.Locked?
    ensures forall tid | tid in s.threads :: tid in t.threads && t.threads[tid] == s.threads[tid]
  {
    hide Unlock;
    t := Next(cfg, Next(cfg, s, Begin(other, None, LockNow)), Run(other, env));
  }

  lemma GrantRuns(cfg: Config, s: Sys, tid: Tid, env: Env)
    requires tid in s.threads && (s.threads[tid].pc.AuthorizeGrant? || s.threads[tid].pc.ApprovalGrant?)
    ensures var t := Next(cfg, s, Run(tid, env));
            t.daemon.svc.status == s.daemon.svc.status && t.daemon.svc.grants != map[]
  {
    hide Unlock;
    var th := s.threads[tid];
    var key := if th.pc.ApprovalGrant? then th.pc.key else ResolvedKey(cfg, th.peer, s.draws);
    GrantLeavesSome(s.daemon.svc, key, s.now);
  }

  /** Wherever a grant is about to be written, a lock from elsewhere can overtake
      it, and then the vault is locked and the grant is there. */
  lemma LockOvertakesGrant(cfg: Config, s: Sys, tid: Tid, other: Tid, env: Env)
    requires tid in s.threads && (s.threads[tid].pc.AuthorizeGrant? || s.threads[tid].pc.ApprovalGrant?)
    requires other !in s.threads && s.daemon.svc.status.Unlocked?
    ensures var t := Next(cfg, Next(cfg, Next(cfg, s, Begin(other, None, LockNow)), Run(other, env)), Run(tid, env));
            t.daemon.svc.status.Locked? && t.daemon.svc.grants != map[]
  {
    hide Next;
    var locked := LockRuns(cfg, s, other, env);
    GrantRuns(cfg, locked, tid, env);
  }

  /** A concrete run: authorise, and lock from elsewhere before the grant. */
  lemma LateGrantHappens() returns (store: Store, actions: seq<Action>)
    ensures var t := Runs(PlainConfig(), Boot(PlainConfig(), store, Auto, 0), actions);
            t.daemon.svc.status.Locked? && t.daemon.svc.grants != map[]
  {
    hide Next;
    var cfg := PlainConfig();
    var first;
    store, first := AuthorizedUpToTheGrant();
    var boot := Boot(cfg, store, Auto, 0);
    LockOvertakesGrant(cfg, Runs(cfg, boot, first), 0, 1, NoHelp);
    var a, b, c := Begin(1, None, LockNow), Run(1, NoHelp), Run(0, NoHelp);
    actions := first + [a] + [b] + [c];
    RunsSnoc(cfg, boot, first, a);
    RunsSnoc(cfg, boot, first + [a], b);
    RunsSnoc(cfg, boot, first + [a] + [b], c);
  }

  // --- A concrete unlock, from any locked state without a cache ---

  /** Locked, logged in to an account of ordinary size, never failed, and nothing
      cached. */
  predicate Openable(s: Sys)
  {
    && s.daemon.svc.status.Locked? && s.daemon.svc.attempts == 0 && s.daemon.svc.sdk.Some? && s.daemon.svc.login.Some?
    && s.daemon.store.cache.None? && Named(s.daemon.svc)
  }

  predicate Named(s: Svc) { s.email.Some? && s.serverUrl.Some? && Short(s.email.value) && Short(s.serverUrl.value) }

  /** The inputs of an unlock that the server grants, on a machine without a
      credential store; how the cache write goes is left open. */
  predicate Helpful(io: UnlockInputs)
  {
    io.sight.Readable? && io.keystore.Absent? && io.populateOk && io.reply == Granted(Pbkdf2(600_000), "uk", "pk", None)
  }

  /** Unlocked against the server, with a token; the account is the one of s. */
  predicate OpenedFrom(s: Sys, t: Sys, tid: Tid, io: UnlockInputs)
  {
    && t.daemon.svc.status.Unlocked? && t.threads.Keys == s.threads.Keys + {tid}
    && t.daemon.svc.sdk.Some? && t.daemon.svc.sdk.value.token && t.daemon.svc.serverUrl.Some?
    && t.daemon.svc.login == s.daemon.svc.login && t.daemon.store.login == s.daemon.store.login
    && (if io.diskOk then t.daemon.store.cache.Some? else t.daemon.store.cache == io.torn)
  }

  /** The record such an unlock writes is small enough for a file. */
  lemma PlainRecordFits(s: Svc, io: UnlockInputs)
    requires Named(s) && Helpful(io)
    ensures var c := TellingCrypto();
            var v := Build(c, io.reply.kdf, io.reply.userKey, io.reply.privateKey, None, s.email.value,
                           s.serverUrl.value, [], None, "p");
            Serialise(Seal(c, v, None, io.nonce)).Ok?
  {
    hide Written, ReadBack;
    var c := TellingCrypto();
    var v := Build(c, io.reply.kdf, io.reply.userKey, io.reply.privateKey, None, s.email.value, s.serverUrl.value, [],
                   None, "p");
    SmallIsShort(v);
  }

  lemma PlainUnlockWrites(d: Daemon, io: UnlockInputs)
    requires d.store.cache.None? && d.svc.status.Locked? && d.svc.sdk.Some? && d.svc.login.Some?
    requires Named(d.svc) && Helpful(io)
    ensures var o := Unlock(TellingCrypto(), d, "p", io);
            && o.result.Ok? && o.after.svc.status.Unlocked? && o.after.svc.sdk.Some? && o.after.svc.sdk.value.token
            && o.after.svc.login == d.svc.login && o.after.svc.serverUrl == d.svc.serverUrl
            && o.after.store.login == d.store.login
            && (if io.diskOk then o.after.store.cache.Some? else o.after.store.cache == io.torn)
  {
    hide Written, ReadBack, Build, Seal, Serialise;
    KdfRoundTrip(io.reply.kdf);
    PlainRecordFits(d.svc, io);
  }

  function UnlockActions(tid: Tid, env: Env): seq<Action>
  {
    [Begin(tid, Some(100), UnlockCheck(Some("p"))), Run(tid, env), Run(tid, env)]
  }

  lemma UnlockRunOpens(s: Sys, tid: Tid, env: Env)
    requires Openable(s) && tid in s.threads && s.threads[tid].pc == UnlockRun(s.now, "p") && Helpful(env.unlock)
    ensures OpenedFrom(s, Next(PlainConfig(), s, Run(tid, env)), tid, env.unlock)
  {
    hide Exec, Unlock;
    PlainUnlockWrites(s.daemon, env.unlock.(now := s.now));
    UnlockSectionEffect(PlainConfig(), s.now, tid, s.threads[tid], s.daemon, s.draws, env);
  }

  lemma UnlockCheckRuns(s: Sys, tid: Tid, env: Env)
    requires Openable(s) && tid in s.threads && s.threads[tid].pc == UnlockCheck(Some("p"))
    ensures Next(PlainConfig(), s, Run(tid, env))
         == s.(threads := s.threads[tid := s.threads[tid].(pc := UnlockRun(s.now, "p"))])
  {
    hide Unlock;
  }

  lemma OpenableSame(s: Sys, t: Sys)
    requires Openable(s) && t.daemon == s.daemon
    ensures Openable(t)
  {
  }

  lemma OpenedSame(s: Sys, r: Sys, t: Sys, tid: Tid, io: UnlockInputs)
    requires OpenedFrom(r, t, tid, io) && r.daemon == s.daemon && r.threads.Keys == s.threads.Keys + {tid}
    ensures OpenedFrom(s, t, tid, io)
  {
  }

  lemma UnlockActionsOpen(s: Sys, tid: Tid, env: Env)
    requires Openable(s) && tid !in s.threads && Helpful(env.unlock)
    ensures OpenedFrom(s, Runs(PlainConfig(), s, UnlockActions(tid, env)), tid, env.unlock)
  {
    hide Next, Openable, OpenedFrom, Helpful, PlainConfig;
    var cfg := PlainConfig();
    var acts := UnlockActions(tid, env);
    BeginRuns(cfg, s, tid, Some(100), UnlockCheck(Some("p")));
    var s1 := Next(cfg, s, acts[0]);
    OpenableSame(s, s1);
    UnlockCheckRuns(s1, tid, env);
    var s2 := Next(cfg, s1, acts[1]);
    OpenableSame(s1, s2);
    UnlockRunOpens(s2, tid, env);
    var s3 := Next(cfg, s2, acts[2]);
    OpenedSame(s, s2, s3, tid, env.unlock);
    RunsSteps(cfg, s, acts, [s, s1, s2, s3]);
  }

  lemma LogoutRuns(cfg: Config, s: Sys, other: Tid, env: Env) returns (t: Sys)
    requires other !in s.threads
    ensures t == Next(cfg, Next(cfg, s, Begin(other, None, LogoutNow)), Run(other, env))
    ensures t.daemon.svc.status.LoggedOut?
    ensures forall tid | tid in s.threads :: tid in t.threads && t.threads[tid] == s.threads[tid]
  {
    hide Unlock;
    BeginRuns(cfg, s, other, None, LogoutNow);
    t := Next(cfg, Next(cfg, s, Begin(other, None, LogoutNow)), Run(other, env));
  }

  lemma StampRuns(cfg: Config, s: Sys, tid: Tid, env: Env)
    requires tid in s.threads && s.threads[tid].pc.StampSync?
    ensures var t := Next(cfg, s, Run(tid, env)).daemon.svc;
            t.status == s.daemon.svc.status && t.lastSync.Some?
  {
  }

  /** Likewise a logout can overtake the stamp of a finished sync. */
  lemma LogoutOvertakesStamp(cfg: Config, s: Sys, tid: Tid, other: Tid, env: Env)
    requires tid in s.threads && s.threads[tid].pc.StampSync? && other !in s.threads
    ensures var t := Next(cfg, Next(cfg, Next(cfg, s, Begin(other, None, LogoutNow)), Run(other, env)), Run(tid, env));
            t.daemon.svc.status.LoggedOut? && t.daemon.svc.lastSync.Some?
  {
    hide Next;
    var out := LogoutRuns(cfg, s, other, env);
    StampRuns(cfg, out, tid, env);
  }

  lemma SyncReachesStamp(cfg: Config, s: Sys, tid: Tid, env: Env)
    requires tid in s.threads && s.threads[tid].pc.SyncNow?
    requires s.daemon.svc.sdk.Some? && s.daemon.svc.sdk.value.token && s.daemon.svc.serverUrl.Some? && env.sync.Synced?
    ensures var t := Next(cfg, s, Run(tid, env));
            t.threads.Keys == s.threads.Keys && t.threads[tid].pc.StampSync?
  {
  }

  /** A concrete run: unlock, sync, and log out before the stamp. */
  lemma LateStampHappens() returns (store: Store, actions: seq<Action>)
    ensures var t := Runs(PlainConfig(), Boot(PlainConfig(), store, Auto, 0), actions);
            t.daemon.svc.status.LoggedOut? && t.daemon.svc.lastSync.Some?
  {
    hide Next, Boot, UnlockActions;
    var cfg := PlainConfig();
    store := Store(File.Holds(LoginState("a", "b")), Missing, None, None);
    var boot := Boot(cfg, store, Auto, 0);
    BootLocked(store);
    var first := UnlockActions(0, NoHelp);
    UnlockActionsOpen(boot, 0, NoHelp);
    var s := Runs(cfg, boot, first);
    var rest := LogoutBeforeStamp(cfg, s);
    actions := first + rest;
    RunsConcat(cfg, boot, first, rest);
  }

  /** From any state with a token, one more request syncs and another logs out. */
  lemma LogoutBeforeStamp(cfg: Config, s: Sys) returns (rest: seq<Action>)
    requires s.threads.Keys == {0}
    requires s.daemon.svc.sdk.Some? && s.daemon.svc.sdk.value.token && s.daemon.svc.serverUrl.Some?
    ensures Runs(cfg, s, rest).daemon.svc.status.LoggedOut? && Runs(cfg, s, rest).daemon.svc.lastSync.Some?
  {
    hide Next;
    BeginRuns(cfg, s, 1, None, SyncNow);
    var s1 := Next(cfg, s, Begin(1, None, SyncNow));
    SyncReachesStamp(cfg, s1, 1, NoHelp);
    var s2 := Next(cfg, s1, Run(1, NoHelp));
    LogoutOvertakesStamp(cfg, s2, 1, 2, NoHelp);
    var s3 := Next(cfg, s2, Begin(2, None, LogoutNow));
    var s4 := Next(cfg, s3, Run(2, NoHelp));
    rest := [Begin(1, None, SyncNow), Run(1, NoHelp), Begin(2, None, LogoutNow), Run(2, NoHelp), Run(1, NoHelp)];
    RunsSteps(cfg, s, rest, [s, s1, s2, s3, s4, Next(cfg, s4, Run(1, NoHelp))]);
  }

  /** A run is its chain of states. */
  lemma {:induction false} RunsSteps(cfg: Config, s: Sys, actions: seq<Action>, states: seq<Sys>)
    requires |states| == |actions| + 1 && states[0] == s
    requires forall i | 0 <= i < |actions| :: states[i + 1] == Next(cfg, states[i], actions[i])
    ensures Runs(cfg, s, actions) == states[|actions|]
    decreases |actions|
  {
    hide Next;
    if actions != [] {
      RunsSteps(cfg, states[1], actions[1..], states[1..]);
    }
  }
}
