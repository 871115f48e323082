/** The daemon over its objects: it performs any sequence of actions on the state
    objects, step by step as the machine does, so that what is proved of every
    run of the machine holds of the objects' fields. */
module Drivers {
  import opened Base
  import opened VaultCaches
  import opened Service
  import opened Machine
  import opened ServiceObjects
  import opened SectionHandlers
  import Residency
  import Grants
  import Release

  class Driver {
    const cfg: Config
    var handlers: Handlers
    var now: Instant
    var lastTick: Instant
    var threads: map<Tid, Thread>
    ghost var log: seq<Event>
    ghost var history: seq<Action>
    ghost const store: Store
    ghost const prompt: PromptMethod
    ghost const started: Instant
    ghost var Repr: set<object>

    ghost function System(): Sys
      reads this, handlers, handlers.state, handlers.state.approvals, handlers.state.disk
    {
      Sys(handlers.state.Snapshot(), now, lastTick, handlers.draws, threads, log)
    }

    ghost predicate Boxed()
      reads this, Repr
    {
      && this in Repr && handlers in Repr && handlers.state in Repr && handlers.state.approvals in Repr
      && handlers.state.disk in Repr
      && handlers.Valid() && handlers.cfg == cfg
    }

    /** The objects are where the machine is after the same actions. */
    ghost predicate Valid()
      reads this, Repr
    {
      Boxed() && System() == Runs(cfg, Boot(cfg, store, prompt, started), history)
    }

    constructor (cfg: Config, store: Store, prompt: PromptMethod, now: Instant)
      ensures Valid() && fresh(Repr) && history == [] && this.cfg == cfg
      ensures this.store == store && this.prompt == prompt && this.started == now
    {
      var disk := new DiskStore(store);
      var epoch := EpochSeconds(now, cfg.offset);
      var state := new ServiceState(cfg.crypto, disk, Reads(true, true), prompt, now, epoch, cfg.earliest);
      var h := new Handlers(state, cfg);
      this.cfg := cfg;
      handlers := h;
      this.now, lastTick := now, now;
      threads := map[];
      log, history := [], [];
      this.store, this.prompt, started := store, prompt, now;
      new;
      Repr := {this, h, state, state.approvals, disk};
    }

    /** One section of one request. */
    method RunThread(tid: Tid, env: Env) returns (released: Option<Op>)
      requires Boxed() && tid in threads
      modifies Repr
      ensures Boxed() && Repr == old(Repr) && handlers == old(handlers)
      ensures history == old(history)
      ensures System() == Next(cfg, old(System()), Run(tid, env))
      ensures old(log) <= log && Reports(log[|old(log)|..], tid, released)
    {
      hide Exec;
      var th := threads[tid];
      ghost var o := Exec(cfg, now, tid, th, handlers.state.Snapshot(), handlers.draws, env);
      var pc: Pc;
      pc, released := handlers.RunSection(now, tid, th, env);
      threads := threads[tid := th.(pc := pc)];
      log := log + o.events;
    }

    /** A round of the auto-lock worker that finds the lock free. */
    method Tick()
      requires Boxed()
      modifies Repr
      ensures Boxed() && Repr == old(Repr) && handlers == old(handlers)
      ensures history == old(history)
      ensures System() == Next(cfg, old(System()), AutoLockTick)
    {
      hide AutoLock;
      ghost var o := AutoLock(now, handlers.state.Snapshot(), handlers.draws);
      TickKeepsDraws(now, handlers.state.Snapshot(), handlers.draws);
      handlers.AutoLockAtOnce(now);
      lastTick := now;
      log := log + o.events;
    }

    /** A new process over the same files: new objects, and every request gone. */
    method RestartProcess(readable: Reads)
      requires Boxed()
      modifies this
      ensures Boxed() && fresh(Repr - old(Repr))
      ensures history == old(history)
      ensures System() == Next(cfg, old(System()), Restart(readable))
    {
      hide Start, Seen, EpochSeconds, Sound;
      var disk := handlers.state.disk;
      var state := new ServiceState(cfg.crypto, disk, readable, handlers.state.prompt, now,
                                    EpochSeconds(now, cfg.offset), cfg.earliest);
      handlers := new Handlers(state, cfg);
      threads := map tid | tid in threads :: threads[tid].(pc := Done(Killed));
      lastTick := now;
      log := log + [Restarted];
      Repr := Repr + {handlers, state, state.approvals};
    }

    /** One action on the objects is one step of the machine. */
    method Advance(a: Action) returns (released: Option<Op>)
      requires Boxed()
      modifies Repr
      ensures Boxed() && fresh(Repr - old(Repr))
      ensures history == old(history)
      ensures System() == Next(cfg, old(System()), a)
      ensures released.Some? ==> a.Run? && old(log) <= log && Released(a.tid, released.value) in log[|old(log)|..]
      ensures a.Run? && a.tid in old(threads) ==> old(log) <= log && Reports(log[|old(log)|..], a.tid, released)
    {
      hide Exec, AutoLock, Start;
      released := None;
      match a
      case Wait(d) => now := now + d;
      case Begin(tid, peer, pc) =>
        if tid !in threads && IsEntry(pc) {
          threads := threads[tid := Thread(peer, pc)];
        }
      case Run(tid, env) =>
        if tid in threads {
          released := RunThread(tid, env);
        }
      case AutoLockTick => Tick();
      case Restart(readable) => RestartProcess(readable);
    }

    /** The same with what follows from the machine's theorems, on the fields: keys,
        unlocked status and session go together; the approval cache approves a key
        exactly when the log does; and decrypted data came out only if the vault
        was unlocked and an earlier action had proved the user to be present, of the
        request itself or of the one whose live grant it found. */
    method Perform(a: Action) returns (released: Option<Op>)
      requires Valid()
      modifies Repr
      ensures Valid() && fresh(Repr - old(Repr))
      ensures history == old(history) + [a] && System() == Next(cfg, old(System()), a)
      ensures (handlers.state.sdk.Some? && handlers.state.sdk.value.keys.Some?) <==> handlers.state.status.Unlocked?
      ensures handlers.state.session.Some? <==> handlers.state.status.Unlocked?
      ensures forall key, t :: IsApproved(handlers.state.approvals.grants, key, t) <==> Grants.LiveAt(log, key, t)
      ensures released.Some? ==>
                && a.Run? && a.tid in old(threads) && old(handlers.state.status).Unlocked?
                && Release.Vouched(cfg, Boot(cfg, store, prompt, started), old(history), a.tid)
    {
      hide Next, Sound, Grants.LiveAt, Release.Vouched, IsApproved, Boot;
      ghost var boot := Boot(cfg, store, prompt, started);
      ghost var before := System();
      released := Advance(a);
      ghost var done := history;
      RunsSnoc(cfg, boot, done, a);
      history := history + [a];
      SoundFields(cfg, store, prompt, started, history);
      forall key, t ensures IsApproved(handlers.state.approvals.grants, key, t) <==> Grants.LiveAt(log, key, t) {
        Grants.ApprovalRefinesLog(cfg, store, prompt, started, history, key, t);
      }
      if released.Some? {
        ghost var i :| |before.log| <= i < |log| && log[i] == Released(a.tid, released.value);
        Release.GatedRelease(cfg, store, prompt, started, done, a, i);
      }
    }

    /** Any sequence of actions, performed on the objects, leaves them where the
        machine's run ends. */
    method PerformAll(actions: seq<Action>)
      requires Valid()
      modifies Repr
      ensures Valid() && fresh(Repr - old(Repr))
      ensures history == old(history) + actions
      ensures System() == Runs(cfg, old(System()), actions)
    {
      ghost var first := System();
      ghost var past := history;
      for n := 0 to |actions|
        invariant Valid() && fresh(Repr - old(Repr))
        invariant history == past + actions[..n]
        invariant System() == Runs(cfg, first, actions[..n])
      {
        assert actions[..n + 1] == actions[..n] + [actions[n]];
        RunsSnoc(cfg, first, actions[..n], actions[n]);
        var ignored := Perform(actions[n]);
      }
      assert actions[..|actions|] == actions;
    }
  }

  lemma TickKeepsDraws(now: Instant, d: Daemon, draws: nat)
    ensures AutoLock(now, d, draws).draws == draws
  {
  }

  lemma SoundFields(cfg: Config, store: Store, prompt: PromptMethod, now: Instant, actions: seq<Action>)
    ensures var s := Runs(cfg, Boot(cfg, store, prompt, now), actions).daemon.svc;
            (Keyed(s) <==> s.status.Unlocked?) && (s.session.Some? <==> s.status.Unlocked?)
  {
    Residency.KeyResidency(cfg, store, prompt, now, actions);
  }
}
