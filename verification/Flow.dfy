/** Whole requests: what each comes to when nothing else runs meanwhile, said of
    what it is given and of the state it meets (crates/grimoire-service/src:
    session.rs, approval.rs, ssh_agent.rs, sync_worker.rs). */
module Flows {
  import opened Base
  import opened Envelope
  import opened VaultCaches
  import opened Service
  import opened Machine
  import opened CacheAgreement
  import opened Unlocking
  import opened Authentications
  import opened Refusals
  import opened Backoffs
  import Residency

  /** Where a request stands, and the daemon it stands before. */
  datatype Spot = Spot(daemon: Daemon, draws: nat, pc: Pc)

  function After(cfg: Config, now: Instant, tid: Tid, peer: Option<U32>, env: Env, from: Spot): Spot
  {
    var o := Exec(cfg, now, tid, Thread(peer, from.pc), from.daemon, from.draws, env);
    Spot(o.daemon, o.draws, o.pc)
  }

  /** The request runs n sections, alone. */
  function Alone(cfg: Config, now: Instant, tid: Tid, peer: Option<U32>, env: Env, from: Spot, n: nat): Spot
    decreases n
  {
    if n == 0 then from else Alone(cfg, now, tid, peer, env, After(cfg, now, tid, peer, env, from), n - 1)
  }

  function SpotOf(s: Sys, tid: Tid): Spot
    requires tid in s.threads
  {
    Spot(s.daemon, s.draws, s.threads[tid].pc)
  }

  /** That is what the machine does when only this request takes steps. */
  lemma {:induction false} AloneIsRun(cfg: Config, s: Sys, tid: Tid, env: Env, n: nat)
    requires tid in s.threads
    ensures var t := Runs(cfg, s, seq(n, _ => Run(tid, env)));
            && tid in t.threads && t.now == s.now && t.threads == s.threads[tid := t.threads[tid]]
            && t.threads[tid].peer == s.threads[tid].peer
            && SpotOf(t, tid) == Alone(cfg, s.now, tid, s.threads[tid].peer, env, SpotOf(s, tid), n)
    decreases n
  {
    hide Exec;
    var actions := seq(n, _ => Run(tid, env));
    if n == 0 {
      assert actions == [];
    } else {
      assert actions[0] == Run(tid, env) && actions[1..] == seq(n - 1, _ => Run(tid, env));
      AloneIsRun(cfg, Next(cfg, s, actions[0]), tid, env, n - 1);
    }
  }

  /** The cache of approvals gained 300 seconds for the peer's key: its session
      leader's, its own, or a drawn one. */
  predicate GrantsTo(cfg: Config, now: Instant, peer: Option<U32>, draws: nat, before: map<U32, Instant>,
                     after: map<U32, Instant>)
  {
    var key := match peer
               case None => DrawnKey(draws)
               case Some(pid) => match cfg.leader(pid) case Some(leader) => leader case None => pid;
    after == before[key := now + 300 * SECOND]
  }

  // --- Trying a password ---

  /** The vault is open with the keys this password unwraps, a fresh session, no
      failures and the account as it was. */
  predicate Opened(cfg: Config, now: Instant, env: Env, password: Password, before: Daemon, after: Daemon)
    requires Opens(cfg.crypto, before, password, env.unlock)
  {
    && after.svc.status.Unlocked? && after.svc.session == Some(Session(None, 0)) && after.svc.lastActivity == now
    && after.svc.sdk.Some? && after.svc.sdk.value.keys == Some(UnlockedKeys(cfg.crypto, before, password, env.unlock))
    && after.svc.attempts == 0 && after.svc.lastAttempt.None? && after.svc.login == before.svc.login
    && after.store.login == before.store.login
    && after.store.backoff == Removed(before.store.backoff, env.files.backoff)
  }

  /** Nothing but the client and the failure count may differ, and the client holds
      no keys unless the vault was open. */
  predicate Unopened(cfg: Config, now: Instant, env: Env, counted: bool, before: Daemon, after: Daemon)
  {
    && after.svc == before.svc.(sdk := after.svc.sdk, attempts := after.svc.attempts,
                                lastAttempt := after.svc.lastAttempt)
    && (!before.svc.status.Unlocked? ==> !Keyed(after.svc))
    && after.svc.attempts == before.svc.attempts + (if counted then 1 else 0)
    && after.svc.lastAttempt == (if counted then Some(now) else before.svc.lastAttempt)
    && after.store == before.store.(backoff := after.store.backoff)
  }

  lemma UnlockGrants(cfg: Config, now: Instant, tid: Tid, th: Thread, d: Daemon, draws: nat, env: Env)
    requires AtUnlock(th.pc) && Sound(d.svc)
    ensures var o := Exec(cfg, now, tid, th, d, draws, env);
            if !th.pc.AuthorizeUnlock? && Opens(cfg.crypto, d, th.pc.password, env.unlock) then
              GrantsTo(cfg, now, th.peer, draws, d.svc.grants, o.daemon.svc.grants)
            else o.daemon.svc.grants == d.svc.grants && o.draws == draws
  {
    hide Unlock, Opens, Refuses, UnlockEvents, BackoffRemaining, EpochSeconds;
    TriedPassword(cfg, now, th, d, env);
    UnlockSound(cfg.crypto, d, th.pc.password, env.unlock.(now := now));
  }

  lemma SameKeysAtAnyTime(c: Crypto, d: Daemon, password: Password, io: UnlockInputs, now: Instant)
    requires Opens(c, d, password, io)
    ensures Opens(c, d, password, io.(now := now))
    ensures UnlockedKeys(c, d, password, io.(now := now)) == UnlockedKeys(c, d, password, io)
  {
  }

  lemma SuccessCounts(cfg: Config, now: Instant, tid: Tid, th: Thread, d: Daemon, draws: nat, env: Env)
    requires AtUnlock(th.pc) && Sound(d.svc) && Opens(cfg.crypto, d, th.pc.password, env.unlock)
    ensures var o := Exec(cfg, now, tid, th, d, draws, env);
            && o.daemon.svc.attempts == 0 && o.daemon.svc.lastAttempt.None?
            && o.daemon.store.backoff == Removed(d.store.backoff, env.files.backoff) && GoesOn(th.pc, o.pc)
  {
    hide Exec, Unlock, Opens, Refuses, RecordsFailure, KeepsBackoff, Sound;
    UnlockSectionGoesOn(cfg, now, tid, th, d, draws, env);
    TriedPassword(cfg, now, th, d, env);
    AnyBackoff(cfg, now, tid, th, d, draws, env);
  }

  lemma TryingSucceeds(cfg: Config, now: Instant, tid: Tid, th: Thread, d: Daemon, draws: nat, env: Env)
    requires AtUnlock(th.pc) && Sound(d.svc) && Opens(cfg.crypto, d, th.pc.password, env.unlock)
    ensures var o := Exec(cfg, now, tid, th, d, draws, env);
            Opened(cfg, now, env, th.pc.password, d, o.daemon) && GoesOn(th.pc, o.pc)
  {
    hide Exec, Unlock, Opens, Refuses, UnlockedKeys;
    var p, io := th.pc.password, env.unlock.(now := now);
    UnlockSectionEffect(cfg, now, tid, th, d, draws, env);
    UnlockOutcome(cfg.crypto, d, p, io);
    UnlockSound(cfg.crypto, d, p, io);
    SameKeysAtAnyTime(cfg.crypto, d, p, env.unlock, now);
    SuccessCounts(cfg, now, tid, th, d, draws, env);
  }

  lemma TryingFails(cfg: Config, now: Instant, tid: Tid, th: Thread, d: Daemon, draws: nat, env: Env)
    requires AtUnlock(th.pc) && Sound(d.svc) && !Opens(cfg.crypto, d, th.pc.password, env.unlock)
    ensures var o := Exec(cfg, now, tid, th, d, draws, env);
            var counted := th.pc.AgentUnlock? || Refuses(cfg.crypto, d, th.pc.password, env.unlock);
            && Unopened(cfg, now, env, counted, d, o.daemon)
            && o.draws == draws && o.pc == Done(if th.pc.AgentUnlock? then LockedError else Failed)
  {
    hide Exec, Unlock, Opens, Refuses, UnlockedKeys;
    var p, io := th.pc.password, env.unlock.(now := now);
    UnlockSectionEffect(cfg, now, tid, th, d, draws, env);
    TriedPassword(cfg, now, th, d, env);
    FailedUnlockLeavesNoTrace(cfg.crypto, d, p, io);
    AnyBackoff(cfg, now, tid, th, d, draws, env);
    UnlockGrants(cfg, now, tid, th, d, draws, env);
    FailureEnds(cfg, now, tid, th, d, draws, env);
  }

  lemma FailureEnds(cfg: Config, now: Instant, tid: Tid, th: Thread, d: Daemon, draws: nat, env: Env)
    requires AtUnlock(th.pc) && Unlock(cfg.crypto, d, th.pc.password, env.unlock.(now := now)).result.Err?
    ensures Exec(cfg, now, tid, th, d, draws, env).pc == Done(if th.pc.AgentUnlock? then LockedError else Failed)
  {
    hide Unlock, UnlockEvents;
  }

  // --- auth.unlock ---

  /** The password a request has: its own, or what the user types. */
  function PasswordFor(d: Daemon, given: Option<Password>, env: Env): Option<Password>
  {
    if given.Some? then given else if d.svc.prompt != NoPrompt then env.password else None
  }

  lemma UnlockAsks(cfg: Config, now: Instant, tid: Tid, peer: Option<U32>, env: Env, from: Spot,
                   given: Option<Password>)
    requires from.pc == UnlockCheck(given)
    ensures var next := After(cfg, now, tid, peer, env, from);
            next == from.(pc := if !Passes(from.daemon.svc, now) then Done(BackoffError)
                                else if given.Some? then UnlockRun(now, given.value) else UnlockPrompt(now))
  {
    hide Unlock, BackoffRemaining;
  }

  lemma UnlockPrompts(cfg: Config, now: Instant, tid: Tid, peer: Option<U32>, env: Env, from: Spot)
    requires from.pc.UnlockPrompt?
    ensures var next := After(cfg, now, tid, peer, env, from);
            var p := PasswordFor(from.daemon, None, env);
            next == from.(pc := if p.None? then Done(Failed) else UnlockRun(from.pc.checkedAt, p.value))
  {
    hide Unlock, BackoffRemaining;
  }

  /** A request that is done stays done. */
  lemma DoneStays(cfg: Config, now: Instant, tid: Tid, peer: Option<U32>, env: Env, from: Spot)
    requires from.pc.Done?
    ensures After(cfg, now, tid, peer, env, from) == from
  {
  }

  /** auth.unlock, whole: turned away while the delay lasts; failing without a
      password; and otherwise opening the vault exactly when cache file or server
      accept it, with 300 seconds of approval for the caller, and counting a failure
      exactly when it is refused as wrong. */
  lemma UnlockRequest(cfg: Config, now: Instant, tid: Tid, peer: Option<U32>, env: Env, d: Daemon, draws: nat,
                      given: Option<Password>)
    requires Sound(d.svc)
    ensures var end := Alone(cfg, now, tid, peer, env, Spot(d, draws, UnlockCheck(given)), 3);
            var p := PasswordFor(d, given, env);
            if !Passes(d.svc, now) then end.pc == Done(BackoffError) && end.daemon == d
            else if p.None? then end.pc == Done(Failed) && end.daemon == d
            else if Opens(cfg.crypto, d, p.value, env.unlock) then
              && end.pc == Done(Answered) && Opened(cfg, now, env, p.value, d, end.daemon)
              && GrantsTo(cfg, now, peer, draws, d.svc.grants, end.daemon.svc.grants)
            else
              && end.pc == Done(Failed)
              && Unopened(cfg, now, env, Refuses(cfg.crypto, d, p.value, env.unlock), d, end.daemon)
  {
    hide After, Passes, Opens, Refuses, Opened, Unopened, GrantsTo, Sound;
    var s0 := Spot(d, draws, UnlockCheck(given));
    var s1 := After(cfg, now, tid, peer, env, s0);
    var s2 := After(cfg, now, tid, peer, env, s1);
    var s3 := After(cfg, now, tid, peer, env, s2);
    ThreeSections(cfg, now, tid, peer, env, s0);
    UnlockAsks(cfg, now, tid, peer, env, s0, given);
    if s1.pc.UnlockRun? {
      UnlockTried(cfg, now, tid, peer, env, s1);
      DoneStays(cfg, now, tid, peer, env, s2);
    } else if s1.pc.UnlockPrompt? {
      UnlockPrompts(cfg, now, tid, peer, env, s1);
      if s2.pc.UnlockRun? {
        UnlockTried(cfg, now, tid, peer, env, s2);
      } else {
        DoneStays(cfg, now, tid, peer, env, s2);
      }
    } else {
      DoneStays(cfg, now, tid, peer, env, s1);
      DoneStays(cfg, now, tid, peer, env, s2);
    }
  }

  lemma ThreeSections(cfg: Config, now: Instant, tid: Tid, peer: Option<U32>, env: Env, from: Spot)
    ensures var s1 := After(cfg, now, tid, peer, env, from);
            var s2 := After(cfg, now, tid, peer, env, s1);
            && Alone(cfg, now, tid, peer, env, from, 1) == s1
            && Alone(cfg, now, tid, peer, env, from, 2) == s2
            && Alone(cfg, now, tid, peer, env, from, 3) == After(cfg, now, tid, peer, env, s2)
  {
    hide After;
    var s1 := After(cfg, now, tid, peer, env, from);
    var s2 := After(cfg, now, tid, peer, env, s1);
    assert Alone(cfg, now, tid, peer, env, s2, 1) == After(cfg, now, tid, peer, env, s2);
    assert Alone(cfg, now, tid, peer, env, s1, 2) == Alone(cfg, now, tid, peer, env, s2, 1);
    assert Alone(cfg, now, tid, peer, env, from, 3) == Alone(cfg, now, tid, peer, env, s1, 2);
    assert Alone(cfg, now, tid, peer, env, from, 2) == Alone(cfg, now, tid, peer, env, s1, 1);
  }

  /** Sections compose. */
  lemma {:induction false} AloneAdds(cfg: Config, now: Instant, tid: Tid, peer: Option<U32>, env: Env, from: Spot,
                                     m: nat, n: nat)
    ensures Alone(cfg, now, tid, peer, env, from, m + n)
         == Alone(cfg, now, tid, peer, env, Alone(cfg, now, tid, peer, env, from, m), n)
    decreases m
  {
    hide After;
    if m > 0 {
      AloneAdds(cfg, now, tid, peer, env, After(cfg, now, tid, peer, env, from), m - 1, n);
    }
  }

  lemma UnlockTried(cfg: Config, now: Instant, tid: Tid, peer: Option<U32>, env: Env, from: Spot)
    requires from.pc.UnlockRun? && Sound(from.daemon.svc)
    ensures var end := After(cfg, now, tid, peer, env, from);
            var p := from.pc.password;
            if Opens(cfg.crypto, from.daemon, p, env.unlock) then
              && end.pc == Done(Answered) && Opened(cfg, now, env, p, from.daemon, end.daemon)
              && GrantsTo(cfg, now, peer, from.draws, from.daemon.svc.grants, end.daemon.svc.grants)
            else
              && end.pc == Done(Failed)
              && Unopened(cfg, now, env, Refuses(cfg.crypto, from.daemon, p, env.unlock), from.daemon, end.daemon)
  {
    hide Exec, Opens, Refuses, Opened, Unopened, GrantsTo, Sound;
    var th := Thread(peer, from.pc);
    UnlockGrants(cfg, now, tid, th, from.daemon, from.draws, env);
    if Opens(cfg.crypto, from.daemon, th.pc.password, env.unlock) {
      TryingSucceeds(cfg, now, tid, th, from.daemon, from.draws, env);
    } else {
      TryingFails(cfg, now, tid, th, from.daemon, from.draws, env);
    }
  }

  // --- auth.login ---

  /** Logged in and locked, at the server asked for or the default one, with the login
      file written as far as it can be. */
  predicate LoggedIn(now: Instant, env: Env, email: string, url: Option<string>, before: Daemon, after: Daemon)
  {
    var l := LoginState(email, if url.Some? then url.value else "https://vault.bitwarden.com");
    && after.svc == before.svc.(status := Locked, email := Some(email), serverUrl := Some(l.serverUrl),
                                sdk := Some(Client(l.serverUrl, None, [], true)), login := Some(l),
                                lastActivity := now, attempts := 0, lastAttempt := None)
    && after.store == before.store.(login := Saved(before.store.login, l, env.files.login),
                                    backoff := Removed(before.store.backoff, env.files.backoff))
  }

  lemma LoginAsks(cfg: Config, now: Instant, tid: Tid, peer: Option<U32>, env: Env, from: Spot)
    requires from.pc.LoginCheck?
    ensures var LoginCheck(email, url, given) := from.pc;
            After(cfg, now, tid, peer, env, from)
            == from.(pc := if !Passes(from.daemon.svc, now) then Done(BackoffError)
                           else if given.Some? then LoginRun(email, url, now) else LoginPrompt(email, url, now))
  {
    hide Unlock, BackoffRemaining;
  }

  lemma LoginPrompts(cfg: Config, now: Instant, tid: Tid, peer: Option<U32>, env: Env, from: Spot)
    requires from.pc.LoginPrompt?
    ensures var LoginPrompt(email, url, at) := from.pc;
            After(cfg, now, tid, peer, env, from)
            == from.(pc := if PasswordFor(from.daemon, None, env).None? then Done(Failed) else LoginRun(email, url, at))
  {
    hide Unlock, BackoffRemaining;
  }

  lemma LoginTried(cfg: Config, now: Instant, tid: Tid, peer: Option<U32>, env: Env, from: Spot)
    requires from.pc.LoginRun? && Sound(from.daemon.svc)
    ensures var end, d := After(cfg, now, tid, peer, env, from), from.daemon;
            if d.svc.status.LoggedOut? && env.verdict.None? then
              end.pc == Done(Answered) && LoggedIn(now, env, from.pc.email, from.pc.url, d, end.daemon)
            else
              && end.pc == Done(Failed)
              && Unopened(cfg, now, env, d.svc.status.LoggedOut? && env.verdict == Some(AuthFailed), d, end.daemon)
  {
    hide Unlock, BackoffRemaining, EpochSeconds;
  }

  /** auth.login, whole. */
  lemma LoginRequest(cfg: Config, now: Instant, tid: Tid, peer: Option<U32>, env: Env, d: Daemon, draws: nat,
                     email: string, url: Option<string>, given: Option<Password>)
    requires Sound(d.svc)
    ensures var end := Alone(cfg, now, tid, peer, env, Spot(d, draws, LoginCheck(email, url, given)), 3);
            if !Passes(d.svc, now) then end.pc == Done(BackoffError) && end.daemon == d
            else if PasswordFor(d, given, env).None? then end.pc == Done(Failed) && end.daemon == d
            else if d.svc.status.LoggedOut? && env.verdict.None? then
              end.pc == Done(Answered) && LoggedIn(now, env, email, url, d, end.daemon)
            else
              && end.pc == Done(Failed)
              && Unopened(cfg, now, env, d.svc.status.LoggedOut? && env.verdict == Some(AuthFailed), d, end.daemon)
  {
    hide After, Passes, LoggedIn, Unopened, Sound;
    var s0 := Spot(d, draws, LoginCheck(email, url, given));
    var s1 := After(cfg, now, tid, peer, env, s0);
    var s2 := After(cfg, now, tid, peer, env, s1);
    ThreeSections(cfg, now, tid, peer, env, s0);
    LoginAsks(cfg, now, tid, peer, env, s0);
    if s1.pc.LoginRun? {
      LoginTried(cfg, now, tid, peer, env, s1);
      DoneStays(cfg, now, tid, peer, env, s2);
    } else if s1.pc.LoginPrompt? {
      LoginPrompts(cfg, now, tid, peer, env, s1);
      if s2.pc.LoginRun? {
        LoginTried(cfg, now, tid, peer, env, s2);
      } else {
        DoneStays(cfg, now, tid, peer, env, s2);
      }
    } else {
      DoneStays(cfg, now, tid, peer, env, s1);
      DoneStays(cfg, now, tid, peer, env, s2);
    }
  }

  // --- auth.authorize ---

  lemma AuthorizeBegins(cfg: Config, now: Instant, tid: Tid, peer: Option<U32>, env: Env, from: Spot)
    requires from.pc.AuthorizeCheck?
    ensures var s1 := After(cfg, now, tid, peer, env, from);
            var s2 := After(cfg, now, tid, peer, env, s1);
            var p := from.pc.password;
            s2 == from.(pc := if from.daemon.svc.status.LoggedOut? then Done(NotLoggedInError)
                              else if !Passes(from.daemon.svc, now) then Done(BackoffError)
                              else if from.daemon.svc.status.Locked? then AuthorizeUnlock(p, now)
                              else AuthorizeVerify(now))
  {
    hide Unlock, BackoffRemaining;
  }

  lemma AuthorizeVerifies(cfg: Config, now: Instant, tid: Tid, peer: Option<U32>, env: Env, from: Spot)
    requires from.pc.AuthorizeVerify? && Sound(from.daemon.svc) && from.daemon.svc.status.Unlocked?
    ensures var s1 := After(cfg, now, tid, peer, env, from);
            var s2 := After(cfg, now, tid, peer, env, s1);
            var d := from.daemon;
            if env.verdict.None? then
              && s2.pc == AuthorizeGrant && s2.draws == from.draws
              && s2.daemon.svc == d.svc.(sdk := s2.daemon.svc.sdk, attempts := 0, lastAttempt := None)
              && Keyed(s2.daemon.svc) && s2.daemon.svc.sdk.value == d.svc.sdk.value.(token := true)
            else s2.pc == Done(Failed) && Unopened(cfg, now, env, env.verdict == Some(AuthFailed), d, s2.daemon)
  {
    hide Unlock, BackoffRemaining, EpochSeconds;
  }

  lemma AuthorizeGrants(cfg: Config, now: Instant, tid: Tid, peer: Option<U32>, env: Env, from: Spot)
    requires from.pc.AuthorizeGrant?
    ensures var end := After(cfg, now, tid, peer, env, from);
            && end.pc == Done(Answered)
            && end.daemon == from.daemon.(svc := from.daemon.svc.(grants := end.daemon.svc.grants))
            && GrantsTo(cfg, now, peer, from.draws, from.daemon.svc.grants, end.daemon.svc.grants)
  {
    hide Unlock, BackoffRemaining, EpochSeconds;
  }

  lemma AuthorizeTried(cfg: Config, now: Instant, tid: Tid, peer: Option<U32>, env: Env, from: Spot)
    requires from.pc.AuthorizeUnlock? && Sound(from.daemon.svc)
    ensures var end, p := After(cfg, now, tid, peer, env, from), from.pc.password;
            if Opens(cfg.crypto, from.daemon, p, env.unlock) then
              && end.pc == AuthorizeGrant && end.draws == from.draws
              && Opened(cfg, now, env, p, from.daemon, end.daemon)
              && end.daemon.svc.grants == from.daemon.svc.grants
            else
              && end.pc == Done(Failed)
              && Unopened(cfg, now, env, Refuses(cfg.crypto, from.daemon, p, env.unlock), from.daemon, end.daemon)
  {
    hide Exec, Opens, Refuses, Opened, Unopened, GrantsTo, Sound, Unlock;
    var th := Thread(peer, from.pc);
    UnlockGrants(cfg, now, tid, th, from.daemon, from.draws, env);
    if Opens(cfg.crypto, from.daemon, th.pc.password, env.unlock) {
      TryingSucceeds(cfg, now, tid, th, from.daemon, from.draws, env);
      AuthorizeDrawsLater(cfg, now, tid, th, from.daemon, from.draws, env);
    } else {
      TryingFails(cfg, now, tid, th, from.daemon, from.draws, env);
    }
  }

  lemma AuthorizeDrawsLater(cfg: Config, now: Instant, tid: Tid, th: Thread, d: Daemon, draws: nat, env: Env)
    requires th.pc.AuthorizeUnlock?
    ensures Exec(cfg, now, tid, th, d, draws, env).draws == draws
  {
    hide Unlock, UnlockEvents;
  }

  lemma OpenedKeeps(cfg: Config, now: Instant, env: Env, password: Password, before: Daemon, after: Daemon,
                    later: Daemon)
    requires Opens(cfg.crypto, before, password, env.unlock) && Opened(cfg, now, env, password, before, after)
    requires later == after.(svc := after.svc.(grants := later.svc.grants))
    ensures Opened(cfg, now, env, password, before, later)
  {
    hide Opens, UnlockedKeys;
  }

  lemma FiveSections(cfg: Config, now: Instant, tid: Tid, peer: Option<U32>, env: Env, from: Spot)
    ensures var s2 := Alone(cfg, now, tid, peer, env, from, 2);
            && s2 == After(cfg, now, tid, peer, env, After(cfg, now, tid, peer, env, from))
            && Alone(cfg, now, tid, peer, env, from, 5)
               == After(cfg, now, tid, peer, env, After(cfg, now, tid, peer, env, After(cfg, now, tid, peer, env, s2)))
  {
    hide After, Alone;
    AloneAdds(cfg, now, tid, peer, env, from, 2, 3);
    ThreeSections(cfg, now, tid, peer, env, from);
    ThreeSections(cfg, now, tid, peer, env, Alone(cfg, now, tid, peer, env, from, 2));
  }

  /** auth.authorize, whole: for a locked vault what auth.unlock does, for an open one
      the server's word on the password. */
  lemma AuthorizeRequest(cfg: Config, now: Instant, tid: Tid, peer: Option<U32>, env: Env, d: Daemon, draws: nat,
                         p: Password)
    requires Sound(d.svc)
    ensures var end := Alone(cfg, now, tid, peer, env, Spot(d, draws, AuthorizeCheck(p)), 5);
            var allowed := GrantsTo(cfg, now, peer, draws, d.svc.grants, end.daemon.svc.grants);
            if d.svc.status.LoggedOut? then end.pc == Done(NotLoggedInError) && end.daemon == d
            else if !Passes(d.svc, now) then end.pc == Done(BackoffError) && end.daemon == d
            else if d.svc.status.Unlocked? then
              if env.verdict.None? then
                && end.pc == Done(Answered) && allowed && end.daemon.svc.status.Unlocked?
                && end.daemon.svc.attempts == 0 && end.daemon.svc.lastAttempt.None?
                && end.daemon.svc.sdk.Some? && end.daemon.svc.sdk.value == d.svc.sdk.value.(token := true)
              else end.pc == Done(Failed) && Unopened(cfg, now, env, env.verdict == Some(AuthFailed), d, end.daemon)
            else if Opens(cfg.crypto, d, p, env.unlock) then
              end.pc == Done(Answered) && allowed && Opened(cfg, now, env, p, d, end.daemon)
            else
              && end.pc == Done(Failed)
              && Unopened(cfg, now, env, Refuses(cfg.crypto, d, p, env.unlock), d, end.daemon)
  {
    hide After, Alone, Passes, Opens, Refuses, Opened, Unopened, Sound, GrantsTo;
    var s0 := Spot(d, draws, AuthorizeCheck(p));
    FiveSections(cfg, now, tid, peer, env, s0);
    AuthorizeBegins(cfg, now, tid, peer, env, s0);
    var s2 := Alone(cfg, now, tid, peer, env, s0, 2);
    var s3 := After(cfg, now, tid, peer, env, s2);
    var s4 := After(cfg, now, tid, peer, env, s3);
    var s5 := After(cfg, now, tid, peer, env, s4);
    if s2.pc.AuthorizeUnlock? {
      AuthorizeTried(cfg, now, tid, peer, env, s2);
      if s3.pc.AuthorizeGrant? {
        AuthorizeGrants(cfg, now, tid, peer, env, s3);
        DoneStays(cfg, now, tid, peer, env, s4);
        OpenedKeeps(cfg, now, env, p, d, s3.daemon, s4.daemon);
      } else {
        DoneStays(cfg, now, tid, peer, env, s3);
        DoneStays(cfg, now, tid, peer, env, s4);
      }
    } else if s2.pc.AuthorizeVerify? {
      AuthorizeVerifies(cfg, now, tid, peer, env, s2);
      if s4.pc.AuthorizeGrant? {
        AuthorizeGrants(cfg, now, tid, peer, env, s4);
      } else {
        DoneStays(cfg, now, tid, peer, env, s4);
      }
    } else {
      DoneStays(cfg, now, tid, peer, env, s2);
      DoneStays(cfg, now, tid, peer, env, s3);
      DoneStays(cfg, now, tid, peer, env, s4);
    }
  }
}
