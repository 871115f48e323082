/** Gated requests from the gate through the approval flow to the read, and what the
    remaining requests and the workers leave behind
    (crates/grimoire-service/src: session.rs, approval.rs, ssh_agent.rs, sync_worker.rs). */
module Approvals {
  import opened Base
  import opened VaultCaches
  import opened Service
  import opened Machine
  import opened Unlocking
  import opened Authentications
  import opened Histories
  import opened Refusals
  import opened Backoffs
  import opened Flows
  import Residency

  // --- The gate ---

  /** The peer's own key: its session leader's, or its process's. */
  predicate IsKeyOf(cfg: Config, peer: Option<U32>, draws: nat, key: U32)
  {
    match peer
    case None => key == DrawnKey(draws)
    case Some(pid) => match cfg.leader(pid) case Some(leader) => key == leader case None => key == pid
  }

  lemma GateBegins(cfg: Config, now: Instant, tid: Tid, peer: Option<U32>, env: Env, from: Spot)
    requires from.pc.GateTouch?
    ensures var s2 := After(cfg, now, tid, peer, env, After(cfg, now, tid, peer, env, from));
            && s2.daemon == from.daemon.(svc := from.daemon.svc.(lastActivity := now)) && s2.draws == from.draws
            && s2.pc == if from.daemon.svc.status.Unlocked? then GateResolve(from.pc.op) else Done(LockedError)
  {
  }

  lemma GateDecides(cfg: Config, now: Instant, tid: Tid, peer: Option<U32>, env: Env, from: Spot) returns (key: U32)
    requires from.pc.GateResolve?
    ensures IsKeyOf(cfg, peer, from.draws, key)
    ensures var s2 := After(cfg, now, tid, peer, env, After(cfg, now, tid, peer, env, from));
            var approved := key in from.daemon.svc.grants && now < from.daemon.svc.grants[key];
            s2.daemon == from.daemon && s2.pc == if approved then Read(from.pc.op) else ApprovalEnter(from.pc.op)
  {
    key := ResolvedKey(cfg, peer, from.draws);
  }

  /** A gated request postpones the automatic lock, is turned away from a vault that
      is not unlocked, and otherwise goes on to read exactly when its own key holds
      a live approval, and to the prompts when it does not. */
  lemma GateRequest(cfg: Config, now: Instant, tid: Tid, peer: Option<U32>, env: Env, d: Daemon, draws: nat, op: Op)
    returns (key: U32)
    ensures IsKeyOf(cfg, peer, draws, key)
    ensures var end := Alone(cfg, now, tid, peer, env, Spot(d, draws, GateTouch(op)), 4);
            var approved := key in d.svc.grants && now < d.svc.grants[key];
            && end.daemon == d.(svc := d.svc.(lastActivity := now))
            && end.pc == if !d.svc.status.Unlocked? then Done(LockedError)
                         else if approved then Read(op) else ApprovalEnter(op)
  {
    hide After, Alone, IsKeyOf;
    var s0 := Spot(d, draws, GateTouch(op));
    AloneAdds(cfg, now, tid, peer, env, s0, 2, 2);
    ThreeSections(cfg, now, tid, peer, env, s0);
    GateBegins(cfg, now, tid, peer, env, s0);
    var s2 := Alone(cfg, now, tid, peer, env, s0, 2);
    ThreeSections(cfg, now, tid, peer, env, s2);
    if s2.pc.GateResolve? {
      key := GateDecides(cfg, now, tid, peer, env, s2);
    } else {
      key := SomeKey(cfg, peer, draws);
      DoneStays(cfg, now, tid, peer, env, s2);
    }
  }

  lemma SomeKey(cfg: Config, peer: Option<U32>, draws: nat) returns (key: U32)
    ensures IsKeyOf(cfg, peer, draws, key)
  {
    key := ResolvedKey(cfg, peer, draws);
  }

  /** Two processes share approvals exactly when they have the same session leader, or
      are the same process: after one's request has been granted 300 seconds, the
      other's, till then without a live approval, is let through within them exactly
      then. */
  lemma ScopeIsSession(cfg: Config, grants: map<U32, Instant>, one: U32, other: U32, now: Instant, later: Instant,
                       after: map<U32, Instant>, key: U32, draws: nat)
    requires GrantsTo(cfg, now, Some(one), draws, grants, after) && now <= later < now + 300 * SECOND
    requires IsKeyOf(cfg, Some(other), draws, key) && (key in grants ==> grants[key] <= later)
    ensures IsApproved(after, key, later) <==>
            var a := match cfg.leader(one) case Some(l) => l case None => one;
            var b := match cfg.leader(other) case Some(l) => l case None => other;
            a == b
  {
  }

  // --- The approval flow ---

  /** The user shows to be present: by a biometric prompt, or with a PIN set by that
      PIN, or without one by a password that the server accepts. */
  predicate Consents(d: Daemon, env: Env)
  {
    || (env.biometric && d.svc.prompt != Terminal && d.svc.prompt != NoPrompt)
    || (d.svc.prompt != NoPrompt && d.svc.session.Some?
        && if d.svc.session.value.pin.Some? then env.pin == d.svc.session.value.pin
           else env.password.Some? && env.verdict.None?)
  }

  lemma FlowBegins(cfg: Config, now: Instant, tid: Tid, peer: Option<U32>, env: Env, from: Spot)
    requires from.pc.ApprovalEnter? && Sound(from.daemon.svc)
    ensures var s2 := After(cfg, now, tid, peer, env, After(cfg, now, tid, peer, env, from));
            && s2.daemon == from.daemon && s2.draws == from.draws
            && s2.pc == if env.biometric && from.daemon.svc.prompt != Terminal && from.daemon.svc.prompt != NoPrompt
                        then ApprovalResolve(from.pc.op) else ApprovalHasPin(from.pc.op)
  {
  }

  /** PIN or password, to the verdict. */
  lemma FlowAsks(cfg: Config, now: Instant, tid: Tid, peer: Option<U32>, env: Env, from: Spot) returns (n: nat)
    requires from.pc.ApprovalHasPin? && Sound(from.daemon.svc) && from.daemon.svc.status.Unlocked?
    requires !(env.biometric && from.daemon.svc.prompt != Terminal && from.daemon.svc.prompt != NoPrompt)
    ensures n <= 3
    ensures var end := Alone(cfg, now, tid, peer, env, from, n);
            && end.draws == from.draws
            && end.pc == (if Consents(from.daemon, env) then ApprovalResolve(from.pc.op)
                          else ApprovalDenied(from.pc.op))
            && (Consents(from.daemon, env) ==> OnlyAsked(from.daemon, end.daemon))
            && (!Consents(from.daemon, env) ==> Turned(from.daemon, env, end.daemon))
  {
    hide After;
    ThreeSections(cfg, now, tid, peer, env, from);
    var s1 := After(cfg, now, tid, peer, env, from);
    PinOrPassword(cfg, now, tid, peer, env, from);
    if s1.pc.ApprovalPinPrompt? {
      PinAsked(cfg, now, tid, peer, env, s1);
      n := if After(cfg, now, tid, peer, env, s1).pc.ApprovalPinVerify? then 3 else 2;
      if n == 3 {
        PinChecked(cfg, now, tid, peer, env, After(cfg, now, tid, peer, env, s1));
      }
    } else {
      PasswordAsked(cfg, now, tid, peer, env, s1);
      n := if After(cfg, now, tid, peer, env, s1).pc.ApprovalPasswordVerify? then 3 else 2;
      if n == 3 {
        PasswordChecked(cfg, now, tid, peer, env, After(cfg, now, tid, peer, env, s1));
      }
    }
  }

  /** Nothing but the session's failures and the client's token may differ. */
  predicate OnlyAsked(before: Daemon, after: Daemon)
  {
    && after == before.(svc := before.svc.(session := after.svc.session, sdk := after.svc.sdk))
    && after.svc.session.Some? && before.svc.session.Some?
    && after.svc.session.value.pin == before.svc.session.value.pin
    && Keyed(after.svc) && Keyed(before.svc) && after.svc.sdk.value.keys == before.svc.sdk.value.keys
  }

  /** Turned away: nothing changed but the failures, unless a third wrong PIN locked
      the vault and forgot every approval. */
  predicate Turned(before: Daemon, env: Env, after: Daemon)
  {
    var wrong := before.svc.prompt != NoPrompt && before.svc.session.Some? && before.svc.session.value.pin.Some?
                 && env.pin.Some?;
    && after.store == before.store && after.svc.attempts == before.svc.attempts
    && if wrong && before.svc.session.value.pinAttempts == 2 then
         after.svc.status.Locked? && after.svc.grants == map[] && !Keyed(after.svc) && after.svc.session.None?
       else if wrong then
         after.svc == before.svc.(session := Some(before.svc.session.value.(
                                    pinAttempts := before.svc.session.value.pinAttempts + 1)))
       else after == before
  }

  lemma PinOrPassword(cfg: Config, now: Instant, tid: Tid, peer: Option<U32>, env: Env, from: Spot)
    requires from.pc.ApprovalHasPin?
    ensures var s := from.daemon.svc.session;
            After(cfg, now, tid, peer, env, from)
            == from.(pc := if s.Some? && s.value.pin.Some? then ApprovalPinPrompt(from.pc.op)
                           else ApprovalPasswordPrompt(from.pc.op))
  {
  }

  lemma PinAsked(cfg: Config, now: Instant, tid: Tid, peer: Option<U32>, env: Env, from: Spot)
    requires from.pc.ApprovalPinPrompt?
    ensures After(cfg, now, tid, peer, env, from)
            == from.(pc := if from.daemon.svc.prompt != NoPrompt && env.pin.Some?
                           then ApprovalPinVerify(from.pc.op, env.pin.value) else ApprovalDenied(from.pc.op))
  {
  }

  lemma PinChecked(cfg: Config, now: Instant, tid: Tid, peer: Option<U32>, env: Env, from: Spot)
    requires from.pc.ApprovalPinVerify? && Sound(from.daemon.svc) && from.daemon.svc.session.Some?
    requires from.daemon.svc.session.value.pin.Some? && env.pin == Some(from.pc.pin)
    requires from.daemon.svc.prompt != NoPrompt
    ensures var end := After(cfg, now, tid, peer, env, from);
            var right := from.daemon.svc.session.value.pin == Some(from.pc.pin);
            && end.draws == from.draws
            && end.pc == (if right then ApprovalResolve(from.pc.op) else ApprovalDenied(from.pc.op))
            && (right ==> OnlyAsked(from.daemon, end.daemon)) && (!right ==> Turned(from.daemon, env, end.daemon))
  {
  }

  lemma PasswordAsked(cfg: Config, now: Instant, tid: Tid, peer: Option<U32>, env: Env, from: Spot)
    requires from.pc.ApprovalPasswordPrompt?
    ensures After(cfg, now, tid, peer, env, from)
            == from.(pc := if from.daemon.svc.prompt != NoPrompt && env.password.Some?
                           then ApprovalPasswordVerify(from.pc.op) else ApprovalDenied(from.pc.op))
  {
  }

  lemma PasswordChecked(cfg: Config, now: Instant, tid: Tid, peer: Option<U32>, env: Env, from: Spot)
    requires from.pc.ApprovalPasswordVerify? && Sound(from.daemon.svc) && from.daemon.svc.status.Unlocked?
    requires from.daemon.svc.session.value.pin.None?
    ensures var end := After(cfg, now, tid, peer, env, from);
            && end.draws == from.draws
            && end.pc == (if env.verdict.None? then ApprovalResolve(from.pc.op) else ApprovalDenied(from.pc.op))
            && (env.verdict.None? ==> OnlyAsked(from.daemon, end.daemon))
            && (env.verdict.Some? ==> Turned(from.daemon, env, end.daemon))
  {
  }

  lemma FlowGrants(cfg: Config, now: Instant, tid: Tid, peer: Option<U32>, env: Env, from: Spot)
    requires from.pc.ApprovalResolve?
    ensures var end := After(cfg, now, tid, peer, env, After(cfg, now, tid, peer, env, from));
            && end.pc == Read(from.pc.op)
            && end.daemon == from.daemon.(svc := from.daemon.svc.(grants := end.daemon.svc.grants))
            && GrantsTo(cfg, now, peer, from.draws, from.daemon.svc.grants, end.daemon.svc.grants)
  {
  }

  lemma FlowDenies(cfg: Config, now: Instant, tid: Tid, peer: Option<U32>, env: Env, from: Spot)
    requires from.pc.ApprovalDenied?
    ensures After(cfg, now, tid, peer, env, from)
            == from.(pc := Done(if from.daemon.svc.status.Unlocked? then DeniedError else LockedError))
  {
  }

  /** The approval flow, whole, from an unlocked vault: it ends at the read, with 300
      seconds of approval for the caller, exactly when the user consents, and otherwise
      in an error, with no approval for anybody. */
  lemma ApprovalFlow(cfg: Config, now: Instant, tid: Tid, peer: Option<U32>, env: Env, d: Daemon, draws: nat, op: Op)
    returns (n: nat)
    requires Sound(d.svc) && d.svc.status.Unlocked?
    ensures n <= 7
    ensures var end := Alone(cfg, now, tid, peer, env, Spot(d, draws, ApprovalEnter(op)), n);
            if Consents(d, env) then
              && end.pc == Read(op) && end.daemon.svc.status.Unlocked? && Keyed(end.daemon.svc)
              && end.daemon.store == d.store && GrantsTo(cfg, now, peer, draws, d.svc.grants, end.daemon.svc.grants)
            else
              && end.pc == Done(if end.daemon.svc.status.Unlocked? then DeniedError else LockedError)
              && Turned(d, env, end.daemon)
  {
    hide After, Alone, Consents, Turned, GrantsTo;
    var s0 := Spot(d, draws, ApprovalEnter(op));
    ThreeSections(cfg, now, tid, peer, env, s0);
    FlowBegins(cfg, now, tid, peer, env, s0);
    var s2 := Alone(cfg, now, tid, peer, env, s0, 2);
    n := 2;
    if s2.pc.ApprovalHasPin? {
      var m := FlowAsks(cfg, now, tid, peer, env, s2);
      AloneAdds(cfg, now, tid, peer, env, s0, 2, m);
      n := 2 + m;
    } else {
      BiometricConsents(d, env);
    }
    var asked := Alone(cfg, now, tid, peer, env, s0, n);
    ThreeSections(cfg, now, tid, peer, env, asked);
    if asked.pc.ApprovalResolve? {
      FlowGrants(cfg, now, tid, peer, env, asked);
      AloneAdds(cfg, now, tid, peer, env, s0, n, 2);
      n := n + 2;
    } else {
      FlowDenies(cfg, now, tid, peer, env, asked);
      AloneAdds(cfg, now, tid, peer, env, s0, n, 1);
      n := n + 1;
    }
  }

  lemma BiometricConsents(d: Daemon, env: Env)
    requires env.biometric && d.svc.prompt != Terminal && d.svc.prompt != NoPrompt
    ensures Consents(d, env)
  {
  }

  // --- Whatever runs in between ---

  /** None of these actions is a section of this request or a restart. */
  predicate Others(tid: Tid, actions: seq<Action>)
  {
    forall i | 0 <= i < |actions| :: (actions[i].Run? ==> actions[i].tid != tid) && !actions[i].Restart?
  }

  lemma {:induction false} OthersLeaveIt(cfg: Config, s: Sys, actions: seq<Action>, tid: Tid)
    requires tid in s.threads && Others(tid, actions)
    ensures var t := Runs(cfg, s, actions); tid in t.threads && t.threads[tid] == s.threads[tid]
    decreases |actions|
  {
    hide Exec, AutoLock;
    if actions != [] {
      OthersLeaveIt(cfg, Next(cfg, s, actions[0]), actions[1..], tid);
    }
  }

  /** In the approval flow, every section in which the user proves to be present leads
      to the grant: whatever other requests and workers do in between, two more
      sections of this request leave 300 seconds of approval for its caller, and the
      request at its read. */
  lemma ProofLeadsToGrant(cfg: Config, s: Sys, tid: Tid, env: Env, first: seq<Action>, between: Env,
                          second: seq<Action>, last: Env)
    requires Residency.Inv(s) && tid in s.threads && IsApproval(s.threads[tid].pc)
    requires Proves(cfg, s.threads[tid], s.daemon, env) && Others(tid, first) && Others(tid, second)
    ensures var t := Runs(cfg, Next(cfg, s, Run(tid, env)), first);
            var u := Runs(cfg, Next(cfg, t, Run(tid, between)), second);
            var v := Next(cfg, u, Run(tid, last));
            && tid in v.threads && v.threads[tid].pc == Read(s.threads[tid].pc.op)
            && GrantsTo(cfg, u.now, s.threads[tid].peer, t.draws, u.daemon.svc.grants, v.daemon.svc.grants)
  {
    hide Exec, Runs, GrantsTo, Proves;
    var th := s.threads[tid];
    ProofGoesOn(cfg, s.now, tid, th, s.daemon, s.draws, env);
    var s1 := Next(cfg, s, Run(tid, env));
    OthersLeaveIt(cfg, s1, first, tid);
    var t := Runs(cfg, s1, first);
    var key := KeyResolved(cfg, t.now, tid, t.threads[tid], t.daemon, t.draws, between);
    var t1 := Next(cfg, t, Run(tid, between));
    OthersLeaveIt(cfg, t1, second, tid);
    var u := Runs(cfg, t1, second);
    KeyGranted(cfg, u.now, tid, u.threads[tid], u.daemon, u.draws, last, t.draws);
  }

  lemma ProofGoesOn(cfg: Config, now: Instant, tid: Tid, th: Thread, d: Daemon, draws: nat, env: Env)
    requires IsApproval(th.pc) && Sound(d.svc) && Proves(cfg, th, d, env)
    ensures Exec(cfg, now, tid, th, d, draws, env).pc == ApprovalResolve(th.pc.op)
  {
  }

  lemma KeyResolved(cfg: Config, now: Instant, tid: Tid, th: Thread, d: Daemon, draws: nat, env: Env) returns (key: U32)
    requires th.pc.ApprovalResolve?
    ensures Exec(cfg, now, tid, th, d, draws, env).pc == ApprovalGrant(th.pc.op, key)
    ensures IsKeyOf(cfg, th.peer, draws, key)
  {
    key := ResolvedKey(cfg, th.peer, draws);
  }

  lemma KeyGranted(cfg: Config, now: Instant, tid: Tid, th: Thread, d: Daemon, draws: nat, env: Env, drawn: nat)
    requires th.pc.ApprovalGrant? && IsKeyOf(cfg, th.peer, drawn, th.pc.key)
    ensures var o := Exec(cfg, now, tid, th, d, draws, env);
            o.pc == Read(th.pc.op) && GrantsTo(cfg, now, th.peer, drawn, d.svc.grants, o.daemon.svc.grants)
  {
  }

  // --- The read ---

  /** What a request that has been let through is answered: the listing, an item, a code
      and a sync only while the vault is unlocked, the rest whenever somebody is
      logged in; and none of them changes more than a sync's ciphers. */
  lemma ReadReply(cfg: Config, now: Instant, tid: Tid, peer: Option<U32>, env: Env, from: Spot)
    requires from.pc.Read? && Sound(from.daemon.svc)
    ensures var end, op, d := After(cfg, now, tid, peer, env, from), from.pc.op, from.daemon;
            var strict := op.VaultList? || op.VaultGet? || op.VaultTotp? || op.SyncTrigger?;
            && end.daemon.store == d.store
            && (if strict && !d.svc.status.Unlocked? then end.pc == Done(LockedError) && end.daemon == d
                else if d.svc.status.LoggedOut? then end.pc == Done(NotLoggedInError) && end.daemon == d
                else if op.SyncTrigger? then
                  && Synchronised(d, env.sync, end.daemon)
                  && end.pc == if d.svc.sdk.value.token && env.sync.Synced? then StampSync(Answered) else Done(Failed)
                else end.pc == Done(Answered) && end.daemon == d)
  {
  }

  /** A sync replaces the ciphers when it brings new ones, and nothing else. */
  predicate Synchronised(before: Daemon, reply: SyncReply, after: Daemon)
  {
    && before.svc.sdk.Some?
    && var client := before.svc.sdk.value;
       var brought := client.token && reply.Synced? && reply.ciphers.Some?;
       after == before.(svc := before.svc.(sdk := Some(
                  client.(ciphers := if brought then reply.ciphers.value else client.ciphers))))
  }

  // --- The SSH agent ---

  /** The agent's request up to the gate: nothing for nobody; straight on for an open
      vault; and a locked one is opened, with approval for the caller, exactly when
      cache file or server accept the password, every failure counting. */
  lemma AgentRequest(cfg: Config, now: Instant, tid: Tid, peer: Option<U32>, env: Env, d: Daemon, draws: nat, op: Op)
    returns (n: nat)
    requires Sound(d.svc)
    ensures n <= 4
    ensures var end := Alone(cfg, now, tid, peer, env, Spot(d, draws, AgentStart(op)), n);
            var p := PasswordFor(d, None, env);
            var on := if op.AgentList? then AgentRead else GateResolve(op);
            if d.svc.status.LoggedOut? then end.pc == Done(NotLoggedInError) && end.daemon == d
            else if d.svc.status.Unlocked? then end.pc == on && end.daemon == d
            else if !Passes(d.svc, now) then end.pc == Done(BackoffError) && end.daemon == d
            else if p.None? then end.pc == Done(Failed) && end.daemon == d
            else if Opens(cfg.crypto, d, p.value, env.unlock) then
              && end.pc == on && Opened(cfg, now, env, p.value, d, end.daemon)
              && GrantsTo(cfg, now, peer, draws, d.svc.grants, end.daemon.svc.grants)
            else end.pc == Done(LockedError) && Unopened(cfg, now, env, true, d, end.daemon)
  {
    hide After, Alone, Passes, Opens, Opened, Unopened, GrantsTo, Sound;
    var s0 := Spot(d, draws, AgentStart(op));
    ThreeSections(cfg, now, tid, peer, env, s0);
    AgentBegins(cfg, now, tid, peer, env, s0);
    n := 1;
    if d.svc.status.Locked? {
      n := 2;
      var s2 := Alone(cfg, now, tid, peer, env, s0, 2);
      if s2.pc.AgentPrompt? {
        n := 3;
        AgentPrompts(cfg, now, tid, peer, env, s2);
        var s3 := Alone(cfg, now, tid, peer, env, s0, 3);
        if s3.pc.AgentUnlock? {
          n := 4;
          AloneAdds(cfg, now, tid, peer, env, s0, 3, 1);
          ThreeSections(cfg, now, tid, peer, env, s3);
          AgentTries(cfg, now, tid, peer, env, s3);
        }
      }
    }
  }

  lemma AgentBegins(cfg: Config, now: Instant, tid: Tid, peer: Option<U32>, env: Env, from: Spot)
    requires from.pc.AgentStart?
    ensures var s1 := After(cfg, now, tid, peer, env, from);
            var op, svc := from.pc.op, from.daemon.svc;
            && s1 == from.(pc := if svc.status.LoggedOut? then Done(NotLoggedInError)
                                 else if svc.status.Locked? then AgentBackoff(op)
                                 else if op.AgentList? then AgentRead else GateResolve(op))
            && (svc.status.Locked? ==>
                  After(cfg, now, tid, peer, env, s1)
                  == from.(pc := if !Passes(svc, now) then Done(BackoffError) else AgentPrompt(op, now)))
  {
    hide Unlock, BackoffRemaining;
  }

  lemma AgentPrompts(cfg: Config, now: Instant, tid: Tid, peer: Option<U32>, env: Env, from: Spot)
    requires from.pc.AgentPrompt?
    ensures var p := PasswordFor(from.daemon, None, env);
            After(cfg, now, tid, peer, env, from)
            == from.(pc := if p.None? then Done(Failed) else AgentUnlock(from.pc.op, from.pc.checkedAt, p.value))
  {
    hide Unlock;
  }

  lemma AgentTries(cfg: Config, now: Instant, tid: Tid, peer: Option<U32>, env: Env, from: Spot)
    requires from.pc.AgentUnlock? && Sound(from.daemon.svc)
    ensures var end, p := After(cfg, now, tid, peer, env, from), from.pc.password;
            if Opens(cfg.crypto, from.daemon, p, env.unlock) then
              && end.pc == (if from.pc.op.AgentList? then AgentRead else GateResolve(from.pc.op))
              && Opened(cfg, now, env, p, from.daemon, end.daemon)
              && GrantsTo(cfg, now, peer, from.draws, from.daemon.svc.grants, end.daemon.svc.grants)
            else end.pc == Done(LockedError) && Unopened(cfg, now, env, true, from.daemon, end.daemon)
  {
    hide Exec, Opens, Refuses, Opened, Unopened, GrantsTo, Sound;
    var th := Thread(peer, from.pc);
    UnlockGrants(cfg, now, tid, th, from.daemon, from.draws, env);
    if Opens(cfg.crypto, from.daemon, th.pc.password, env.unlock) {
      TryingSucceeds(cfg, now, tid, th, from.daemon, from.draws, env);
    } else {
      TryingFails(cfg, now, tid, th, from.daemon, from.draws, env);
    }
  }

  // --- Lock, logout, PIN and the workers ---

  /** Locked by whatever cause: no keys, no ciphers, no token, no session and no
      approvals are left, and the account stays. */
  predicate Forgotten(before: Svc, after: Svc)
  {
    && before.serverUrl.Some?
    && after == before.(status := Locked, session := None, grants := map[],
                        sdk := Some(Client(before.serverUrl.value, None, [], false)))
  }

  /** auth.lock, and the automatic lock after 900 seconds, on an unlocked vault; both
      leave any other alone. */
  lemma LockRequest(cfg: Config, now: Instant, tid: Tid, peer: Option<U32>, env: Env, from: Spot)
    requires (from.pc.LockNow? || from.pc.AutoLockWrite?) && Sound(from.daemon.svc)
    ensures var end, svc := After(cfg, now, tid, peer, env, from), from.daemon.svc;
            var due := svc.status.Unlocked? && (from.pc.LockNow? || now >= svc.lastActivity + 900 * SECOND);
            && end.pc == Done(Answered) && end.daemon.store == from.daemon.store
            && (if due then Forgotten(svc, end.daemon.svc) else end.daemon.svc == svc)
  {
  }

  /** A round of the auto-lock worker, the check and the lock, alone. */
  lemma AutoLockRequest(cfg: Config, now: Instant, tid: Tid, peer: Option<U32>, env: Env, d: Daemon, draws: nat)
    requires Sound(d.svc)
    ensures var end := Alone(cfg, now, tid, peer, env, Spot(d, draws, AutoLockRead), 2);
            && end.pc == Done(Answered) && end.daemon.store == d.store
            && (if d.svc.status.Unlocked? && now >= d.svc.lastActivity + 900 * SECOND then
                  Forgotten(d.svc, end.daemon.svc)
                else end.daemon.svc == d.svc)
  {
    hide After, Alone, Sound, Forgotten;
    var s0 := Spot(d, draws, AutoLockRead);
    ThreeSections(cfg, now, tid, peer, env, s0);
    var s1 := After(cfg, now, tid, peer, env, s0);
    AutoLockChecks(cfg, now, tid, peer, env, s0);
    if s1.pc.AutoLockWrite? {
      LockRequest(cfg, now, tid, peer, env, s1);
    } else {
      DoneStays(cfg, now, tid, peer, env, s1);
    }
  }

  lemma AutoLockChecks(cfg: Config, now: Instant, tid: Tid, peer: Option<U32>, env: Env, from: Spot)
    requires from.pc.AutoLockRead?
    ensures var svc := from.daemon.svc;
            After(cfg, now, tid, peer, env, from)
            == from.(pc := if svc.status.Unlocked? && now >= svc.lastActivity + 900 * SECOND then AutoLockWrite
                           else Done(Answered))
  {
  }

  /** auth.logout: nothing of the account is left in memory, and of its files what could
      be deleted is gone. The failure count stays. */
  lemma LogoutRequest(cfg: Config, now: Instant, tid: Tid, peer: Option<U32>, env: Env, from: Spot)
    requires from.pc.LogoutNow?
    ensures var end, d := After(cfg, now, tid, peer, env, from), from.daemon;
            && end.pc == Done(Answered)
            && end.daemon.svc == Svc(LoggedOut, None, None, None, d.svc.lastActivity, None, d.svc.prompt, map[],
                                     d.svc.attempts, d.svc.lastAttempt, None, None)
            && end.daemon.store == Store(if env.files.login.Succeeds? then Missing else d.store.login, d.store.backoff,
                                         if env.files.cache then None else d.store.cache,
                                         if env.keystoreOk then None else d.store.cek)
  {
  }

  /** auth.set_pin answers when the vault is unlocked and the PIN has four bytes or more,
      sets it then, and changes nothing else ever. */
  lemma SetPinRequest(cfg: Config, now: Instant, tid: Tid, peer: Option<U32>, env: Env, from: Spot)
    requires from.pc.SetPinNow? && Sound(from.daemon.svc)
    ensures var end, d := After(cfg, now, tid, peer, env, from), from.daemon;
            if d.svc.status.Unlocked? && |from.pc.pin| >= 4 then
              && end.pc == Done(Answered) && d.svc.session.Some?
              && end.daemon == d.(svc := d.svc.(session := Some(d.svc.session.value.(pin := Some(from.pc.pin)))))
            else end.pc == Done(Failed) && end.daemon == d
  {
  }

  /** A sync after an unlock or in the background, whole: the time is stamped exactly when
      the server was asked with a token and answered; when it says that the login was
      revoked, cache file and credential go, as far as they can be deleted, and an
      unlocked vault is locked. */
  lemma SyncRequest(cfg: Config, now: Instant, tid: Tid, peer: Option<U32>, env: Env, d: Daemon, draws: nat, pc: Pc)
    requires (pc.SyncNow? || pc.BackgroundSync?) && Sound(d.svc)
    ensures var end := Alone(cfg, now, tid, peer, env, Spot(d, draws, pc), 4);
            var asked := !d.svc.status.LoggedOut? && (pc.BackgroundSync? ==> d.svc.status.Unlocked?)
                         && d.svc.sdk.value.token;
            if asked && env.sync.Synced? then
              && end.pc == Done(Answered) && end.daemon.svc.lastSync == Some(now + cfg.offset)
              && Synchronised(d, env.sync, end.daemon.(svc := end.daemon.svc.(lastSync := d.svc.lastSync)))
            else if asked && env.sync.SyncRevoked? then
              && end.pc == Done(Answered)
              && end.daemon.store == d.store.(cache := if env.files.cache then None else d.store.cache,
                                              cek := if env.keystoreOk then None else d.store.cek)
              && (if d.svc.status.Unlocked? then Forgotten(d.svc, end.daemon.svc) else end.daemon.svc == d.svc)
            else end.pc == Done(Failed) && end.daemon == d
  {
    hide After, Alone, Sound, Forgotten, Synchronised;
    var s0 := Spot(d, draws, pc);
    ThreeSections(cfg, now, tid, peer, env, s0);
    AloneAdds(cfg, now, tid, peer, env, s0, 3, 1);
    ThreeSections(cfg, now, tid, peer, env, Alone(cfg, now, tid, peer, env, s0, 3));
    SyncAsks(cfg, now, tid, peer, env, s0);
    var s1 := Alone(cfg, now, tid, peer, env, s0, 1);
    var s2 := Alone(cfg, now, tid, peer, env, s0, 2);
    var s3 := Alone(cfg, now, tid, peer, env, s0, 3);
    if s1.pc.StampSync? {
      SyncStamps(cfg, now, tid, peer, env, s1);
      DoneStays(cfg, now, tid, peer, env, s2);
      DoneStays(cfg, now, tid, peer, env, s3);
      StampOnly(d, env.sync, s1.daemon, s2.daemon);
    } else if s1.pc.RevokeCache? {
      SyncRevokes(cfg, now, tid, peer, env, s1);
    } else {
      DoneStays(cfg, now, tid, peer, env, s1);
      DoneStays(cfg, now, tid, peer, env, s2);
      DoneStays(cfg, now, tid, peer, env, s3);
    }
  }

  lemma SyncAsks(cfg: Config, now: Instant, tid: Tid, peer: Option<U32>, env: Env, from: Spot)
    requires (from.pc.SyncNow? || from.pc.BackgroundSync?) && Sound(from.daemon.svc)
    ensures var s1, d := After(cfg, now, tid, peer, env, from), from.daemon;
            var asked := !d.svc.status.LoggedOut? && (from.pc.BackgroundSync? ==> d.svc.status.Unlocked?)
                         && d.svc.sdk.value.token;
            && s1.pc == (if asked && env.sync.Synced? then StampSync(Answered)
                         else if asked && env.sync.SyncRevoked? then RevokeCache else Done(Failed))
            && (if asked && env.sync.Synced? then Synchronised(d, env.sync, s1.daemon) else s1.daemon == d)
  {
    hide CacheEvents, Lockdown;
    if from.pc.SyncNow? {
      SyncNowAsks(cfg, now, tid, peer, env, from);
    }
  }

  lemma SyncNowAsks(cfg: Config, now: Instant, tid: Tid, peer: Option<U32>, env: Env, from: Spot)
    requires from.pc.SyncNow? && Sound(from.daemon.svc)
    ensures var s1, d := After(cfg, now, tid, peer, env, from), from.daemon;
            var asked := !d.svc.status.LoggedOut? && d.svc.sdk.value.token;
            && s1.pc == (if asked && env.sync.Synced? then StampSync(Answered)
                         else if asked && env.sync.SyncRevoked? then RevokeCache else Done(Failed))
            && (if asked && env.sync.Synced? then Synchronised(d, env.sync, s1.daemon) else s1.daemon == d)
  {
    hide CacheEvents, Lockdown;
  }

  lemma SyncStamps(cfg: Config, now: Instant, tid: Tid, peer: Option<U32>, env: Env, from: Spot)
    requires from.pc.StampSync?
    ensures var next := After(cfg, now, tid, peer, env, from);
            && next.pc == Done(from.pc.next)
            && next.daemon == from.daemon.(svc := from.daemon.svc.(lastSync := Some(now + cfg.offset)))
  {
  }

  lemma StampOnly(d: Daemon, reply: SyncReply, synced: Daemon, stamped: Daemon)
    requires Synchronised(d, reply, synced)
    requires stamped == synced.(svc := synced.svc.(lastSync := stamped.svc.lastSync))
    ensures Synchronised(d, reply, stamped.(svc := stamped.svc.(lastSync := d.svc.lastSync)))
  {
  }

  lemma SyncRevokes(cfg: Config, now: Instant, tid: Tid, peer: Option<U32>, env: Env, from: Spot)
    requires from.pc.RevokeCache? && Sound(from.daemon.svc)
    ensures var s2 := After(cfg, now, tid, peer, env, After(cfg, now, tid, peer, env, from));
            var end, d := After(cfg, now, tid, peer, env, s2), from.daemon;
            && end.pc == Done(Answered)
            && end.daemon.store == d.store.(cache := if env.files.cache then None else d.store.cache,
                                            cek := if env.keystoreOk then None else d.store.cek)
            && (if d.svc.status.Unlocked? then Forgotten(d.svc, end.daemon.svc) else end.daemon.svc == d.svc)
  {
    hide After, Forgotten, Sound;
    RevokeDeletes(cfg, now, tid, peer, env, from);
    RevokeLocks(cfg, now, tid, peer, env, After(cfg, now, tid, peer, env, After(cfg, now, tid, peer, env, from)));
  }

  lemma RevokeDeletes(cfg: Config, now: Instant, tid: Tid, peer: Option<U32>, env: Env, from: Spot)
    requires from.pc.RevokeCache?
    ensures var d := from.daemon;
            After(cfg, now, tid, peer, env, After(cfg, now, tid, peer, env, from))
            == from.(pc := RevokeLock, daemon := d.(store := d.store.(
                       cache := if env.files.cache then None else d.store.cache,
                       cek := if env.keystoreOk then None else d.store.cek)))
  {
    hide CacheEvents, Lockdown;
  }

  lemma RevokeLocks(cfg: Config, now: Instant, tid: Tid, peer: Option<U32>, env: Env, from: Spot)
    requires from.pc.RevokeLock? && Sound(from.daemon.svc)
    ensures var end, svc := After(cfg, now, tid, peer, env, from), from.daemon.svc;
            && end.pc == Done(Answered) && end.daemon.store == from.daemon.store
            && (if svc.status.Unlocked? then Forgotten(svc, end.daemon.svc) else end.daemon.svc == svc)
  {
  }
}
