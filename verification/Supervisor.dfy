/** The supervisor as it is written: an object whose methods update the recorded
    state, the generation slot and the generations, call by call.  Every method is
    proved to take exactly the transition that SupervisorSpec gives it. */
module RuntimeSupervisor {
  import opened Wrappers
  import opened Generation
  import opened GenerationProofs
  import opened SupervisorSpec

  /** One generation object. */
  class GenerationObject {
    var built: bool
    var executing: bool
    var heartbeat: bool
    var registered: bool
    var has: Parts
    var closed: Flags
    var watch: Watch
    var publicURL: string
    var active: Config
    ghost var log: seq<Event>

    ghost function Value(): Gen
      reads this
    {
      Gen(built, executing, heartbeat, registered, has, closed, watch, publicURL, active, log)
    }

    constructor (d: Deps, cfg: Config)
      ensures Value() == Fresh(d, cfg)
    {
      built, executing, heartbeat, registered := false, false, false, !d.register;
      has := Parts(false, false, false, false, false);
      closed := Flags(true, true, true, true, false);
      watch := Watch(false, false, 0, 0);
      publicURL, active, log := "", cfg, [];
    }

    predicate LocalResourcesClosed()
      reads this
      ensures LocalResourcesClosed() == Closed(Value())
    {
      closed.workers && closed.api && closed.edge && closed.observability && closed.context
    }

    /** What a call provides, and which resources it leaves open. */
    method Acquire(d: Deps, c: Call, a: Answer)
      modifies this`has, this`closed
      ensures has == Provide(d, old(has), c, a) && closed == Open(old(closed), c, a)
    {
      hide Provide, Open;
      has, closed := Provide(d, has, c, a), Open(closed, c, a);
    }

    /** What a call does to the fields. */
    method Undergo(d: Deps, url: string, c: Call, a: Answer)
      modifies this
      ensures Value() == Effect(d, old(Value()), url, c, a)
    {
      hide Provide, Open, Notice;
      Acquire(d, c, a);
      watch := Notice(watch, c, a);
      if c.Register? && (a.ok || a.effect) { registered := true; }
      if c.StartHeartbeatLoop? { heartbeat := true; }
      if c.Publish? { publicURL, executing := url, true; }
    }

    method MarkRegistered(now: bool)
      modifies this`registered
      ensures registered == (old(registered) || now)
    {
      if now { registered := true; }
    }

    /** Whether the activation goes on after a call. */
    method Judge(c: Call, a: Answer) returns (err: Error)
      ensures err == Verdict(Value(), c, a)
    {
      err := [];
      if c.PollFailures? {
        if watch.fatal || a.effect { err := [ComponentFailed]; }
      } else if !Infallible(c) && (!a.ok || (c.NewApi? && a.nothing)) {
        err := [CallFailed(c)];
      }
    }
  }

  ghost function Values(all: seq<GenerationObject>): seq<Gen>
    reads all
  {
    seq(|all|, i requires 0 <= i < |all| reads all => all[i].Value())
  }

  class Supervisor {
    const deps: Deps
    const env: Env
    var state: State
    var generation: GenerationObject?
    var calls: nat
    ghost var all: seq<GenerationObject>
    ghost var slot: Option<nat>
    ghost var saves: seq<Save>

    ghost predicate Valid()
      reads this
    {
      && (forall i, j :: 0 <= i < j < |all| ==> all[i] != all[j])
      && (slot.None? <==> generation == null)
      && (slot.Some? ==> slot.value < |all| && all[slot.value] == generation)
    }

    ghost function Model(): Sup
      reads this, all
    {
      Sup(state, slot, Values(all), saves, calls)
    }

    constructor (d: Deps, e: Env, loaded: State)
      ensures Valid() && Model() == Initial(loaded) && deps == d && env == e
    {
      deps, env := d, e;
      state := loaded.(actual := ActualStopped);
      generation := null;
      calls := 0;
      all, slot, saves := [], None, [];
    }

    method UpdateState(next: State) returns (err: Error)
      requires Valid()
      modifies this`state, this`saves, this`calls
      ensures Valid() && Outcome(Model(), err) == Update(old(Model()), next, env)
    {
      var a := env(calls);
      state := next;
      saves := saves + [Save(next, a.ok || a.effect)];
      calls := calls + 1;
      err := if a.ok then [] else [CallFailed(SaveState)];
    }

    method Failed(desired: Desired, cause: Error) returns (err: Error)
      requires Valid()
      modifies this`state, this`saves, this`calls
      ensures Valid() && Outcome(Model(), err) == Fail(old(Model()), desired, cause, env)
    {
      var stateErr := UpdateState(State(desired, ActualFailed, cause));
      err := cause + stateErr;
    }

    // -------------------------------------------------------------- calls on a generation

    /** One outside call on behalf of a generation, with what it does to it. */
    method Do(g: GenerationObject, c: Call, url: string) returns (next: string, err: Error)
      modifies g, this`calls
      ensures Work(g.Value(), calls, next, err) == Attempt(deps, Work(old(g.Value()), old(calls), url, []), c, env)
      ensures !c.InitObservability? && !c.NewApi? && !c.NewWorkers? && !c.NewEdge? ==> g.has == old(g.has)
    {
      var a := env(calls);
      err := g.Judge(c, a);
      g.Undergo(deps, url, c, a);
      g.log := g.log + [Event(c, a.ok || Infallible(c), a.effect, calls)];
      calls := calls + 1;
      next := if c.StartEdge? && a.ok then a.text else url;
    }

    /** One call of a teardown or of a light apply. */
    method Invoke(g: GenerationObject, c: Call) returns (ok: bool, effect: bool)
      modifies g`log, this`calls
      ensures ok == env(old(calls)).ok && effect == env(old(calls)).effect && calls == old(calls) + 1
      ensures g.log == old(g.log) + [Event(c, ok, effect, old(calls))]
    {
      ok, effect := env(calls).ok, env(calls).effect;
      g.log := g.log + [Event(c, ok, effect, calls)];
      calls := calls + 1;
    }

    method StopApi(g: GenerationObject, ghost remote: Error, before: Error) returns (local: Error)
      modifies g, this`calls
      ensures Torn(g.Value(), calls, remote, local) == ReleaseApi(Torn(old(g.Value()), old(calls), remote, before), env)
    {
      local := before;
      if g.has.api && !g.closed.api {
        var ok, _ := Invoke(g, ShutdownApi);
        g.closed := g.closed.(api := ok);
        if !ok { local := local + [CallFailed(ShutdownApi)]; }
      }
    }

    method StopAndCloseEdge(g: GenerationObject, ghost remote: Error, before: Error) returns (local: Error)
      modifies g, this`calls
      ensures Torn(g.Value(), calls, remote, local)
              == ReleaseEdge(Torn(old(g.Value()), old(calls), remote, before), env)
    {
      hide HaltEdge, DiscardEdge;
      local := before;
      if g.has.edge && !g.closed.edge {
        var stopped;
        stopped, local := StopEdgeOf(g, remote, local);
        if stopped { local := DiscardEdgeOf(g, remote, local); }
      }
    }

    method StopEdgeOf(g: GenerationObject, ghost remote: Error, before: Error) returns (stopped: bool, local: Error)
      modifies g, this`calls
      ensures Torn(g.Value(), calls, remote, local) == HaltEdge(Torn(old(g.Value()), old(calls), remote, before), env)
      ensures stopped <==> local == before
    {
      var ok, _ := Invoke(g, StopEdge);
      stopped := ok;
      local := before;
      if stopped { g.publicURL := ""; } else { local := local + [CallFailed(StopEdge)]; }
    }

    method DiscardEdgeOf(g: GenerationObject, ghost remote: Error, before: Error) returns (local: Error)
      modifies g, this`calls
      ensures Torn(g.Value(), calls, remote, local)
              == DiscardEdge(Torn(old(g.Value()), old(calls), remote, before), env)
    {
      var ok, _ := Invoke(g, CloseEdge);
      g.closed := g.closed.(edge := ok);
      local := before;
      if !ok { local := local + [CallFailed(CloseEdge)]; }
    }

    method AwaitAllWorkers(g: GenerationObject, ghost remote: Error, before: Error) returns (local: Error)
      modifies g, this`calls
      ensures Torn(g.Value(), calls, remote, local)
              == AwaitWorkers(Torn(old(g.Value()), old(calls), remote, before), env)
    {
      local := before;
      if g.has.workers && !g.closed.workers {
        var ok, _ := Invoke(g, WaitWorkers);
        g.closed := g.closed.(workers := ok);
        if !ok { local := local + [CallFailed(WaitWorkers)]; }
      }
    }

    method StopObservability(g: GenerationObject, ghost remote: Error, before: Error) returns (local: Error)
      modifies g, this`calls
      ensures Torn(g.Value(), calls, remote, local)
              == ReleaseObservability(Torn(old(g.Value()), old(calls), remote, before), env)
    {
      local := before;
      if g.has.observability && !g.closed.observability {
        var ok, _ := Invoke(g, ShutdownObservability);
        g.closed := g.closed.(observability := ok);
        if !ok { local := local + [CallFailed(ShutdownObservability)]; }
      }
    }

    method PauseRunner(g: GenerationObject, pause: bool) returns (remote: Error)
      modifies g`log, this`calls
      ensures Torn(g.Value(), calls, remote, []) == PauseRemote(Torn(old(g.Value()), old(calls), [], []), pause, env)
    {
      remote := [];
      if pause && g.has.lifecycle && g.registered {
        var ok, _ := Invoke(g, Pause);
        if !ok { remote := [CallFailed(Pause)]; }
      }
    }

    method StopAllWorkers(g: GenerationObject, ghost remote: Error)
      modifies g, this`calls
      ensures Torn(g.Value(), calls, remote, []) == CancelWorkers(Torn(old(g.Value()), old(calls), remote, []), env)
    {
      if g.has.workers {
        g.log := g.log + [Event(StopWorkers, true, false, calls)];
        calls := calls + 1;
        g.closed := g.closed.(workers := false);
      }
    }

    /** Everything is tried whatever fails before; only the local errors decide
        whether the generation may be dropped. */
    method TeardownGeneration(g: GenerationObject, pause: bool) returns (remote: Error, local: Error)
      modifies g, this`calls
      ensures Torn(g.Value(), calls, remote, local) == Teardown(old(g.Value()), old(calls), pause, env)
    {
      hide PauseRemote, CancelWorkers, ReleaseApi, ReleaseEdge, AwaitWorkers, ReleaseObservability;
      g.heartbeat := false;
      remote := PauseRunner(g, pause);
      StopAllWorkers(g, remote);
      local := StopApi(g, remote, []);
      local := StopAndCloseEdge(g, remote, local);
      local := AwaitAllWorkers(g, remote, local);
      local := StopObservability(g, remote, local);
      g.closed := g.closed.(context := true);
      g.executing := false;
    }

    // -------------------------------------------------------------- construction and activation

    /** Builds a generation; one that could not be completed is torn down. */
    method Assemble(cfg: Config) returns (made: GenerationObject, err: Error)
      modifies this`calls
      ensures fresh(made)
      ensures var w := Construct(deps, cfg, old(calls), env);
              if w.err == [] then made.Value() == w.g.(built := true) && calls == w.clock && err == []
              else var t := Teardown(w.g, w.clock, false, env);
                   made.Value() == t.g && calls == t.clock && err == w.err + t.remote + t.local && err != []
    {
      hide Perform, Teardown, ConstructionPlan;
      made := new GenerationObject(deps, cfg);
      err := BuildParts(made);
      if err == [] {
        made.built := true;
      } else {
        var remote, local := TeardownGeneration(made, false);
        err := err + remote + local;
      }
    }

    /** A completed generation is handed out; a dropped one is only remembered here. */
    method NewGeneration(cfg: Config) returns (g: GenerationObject?, err: Error)
      requires Valid() && generation == null
      modifies this`calls, this`all
      ensures Valid() && Outcome(Model(), err) == Create(deps, old(Model()), cfg, env)
      ensures err == [] ==> g != null && fresh(g) && |all| == |old(all)| + 1 && all[|all| - 1] == g
    {
      hide Construct, Teardown;
      if !deps.api { return null, [NoApiConstructor]; }
      var made;
      made, err := Assemble(cfg);
      g := made;
      all := all + [made];
      assert Values(all) == old(Values(all)) + [made.Value()];
    }

    method BuildParts(g: GenerationObject) returns (err: Error)
      modifies g, this`calls
      ensures exists url :: Work(g.Value(), calls, url, err)
                            == Perform(deps, ConstructionPlan(deps), Work(old(g.Value()), old(calls), "", []), env)
    {
      hide Attempt, Perform;
      var url := "";
      ghost var w, p := Work(g.Value(), calls, "", []), ConstructionPlan(deps);
      if deps.observability {
        url, err := Do(g, InitObservability, url);
        w, p := Advance(p, w, Work(g.Value(), calls, url, err));
        if err != [] { return; }
      }
      url, err := Do(g, NewApi, url);
      w, p := Advance(p, w, Work(g.Value(), calls, url, err));
      if err != [] { return; }
      Infallibly(deps, w, NewWorkers, env);
      url, err := Do(g, NewWorkers, url);
      w, p := Advance(p, w, Work(g.Value(), calls, url, err));
      if deps.edge {
        url, err := Do(g, NewEdge, url);
        w, p := Advance(p, w, Work(g.Value(), calls, url, err));
      }
      Ended(deps, p, w, env);
    }

    method ActivateGeneration(g: GenerationObject) returns (url: string, err: Error)
      modifies g, this`calls
      ensures Work(g.Value(), calls, url, err) == Activate(deps, old(g.Value()), old(calls), env)
    {
      hide Attempt, Perform, WorkersPlan;
      url := "";
      ghost var w, p := Work(g.Value(), calls, url, []), ActivationPlan(deps, g.Value());
      url, err := Do(g, StartApi, url);
      w, p := Advance(p, w, Work(g.Value(), calls, url, err));
      if err != [] { return; }
      url, err := Do(g, PollFailures, url);
      w, p := Advance(p, w, Work(g.Value(), calls, url, err));
      if err != [] { return; }
      if g.has.edge {
        url, err := Do(g, LocalOrigin, url);
        w, p := Advance(p, w, Work(g.Value(), calls, url, err));
        if err != [] { return; }
        url, err := Do(g, StartEdge, url);
        w, p := Advance(p, w, Work(g.Value(), calls, url, err));
        if err != [] { return; }
        url, err := Do(g, PollFailures, url);
        w, p := Advance(p, w, Work(g.Value(), calls, url, err));
        if err != [] { return; }
      }
      if deps.capabilities {
        url, err := Do(g, CheckCapabilities, url);
        w, p := Advance(p, w, Work(g.Value(), calls, url, err));
        if err != [] { return; }
      }
      SamePlan(deps, old(g.Value()), g.Value());
      url, err := VerifyAndRegister(g, url);
    }

    method VerifyAndRegister(g: GenerationObject, origin: string) returns (url: string, err: Error)
      modifies g, this`calls
      ensures Work(g.Value(), calls, url, err)
              == Perform(deps, EndpointPlan(deps, old(g.Value())), Work(old(g.Value()), old(calls), origin, []), env)
    {
      hide Attempt, Perform, WorkersPlan;
      url := origin;
      ghost var w, p := Work(g.Value(), calls, url, []), EndpointPlan(deps, g.Value());
      if deps.verify {
        url, err := Do(g, VerifyEndpoint, url);
        w, p := Advance(p, w, Work(g.Value(), calls, url, err));
        if err != [] { return; }
      }
      url, err := Do(g, PollFailures, url);
      w, p := Advance(p, w, Work(g.Value(), calls, url, err));
      if err != [] { return; }
      if deps.register {
        url, err := Do(g, Register, url);
        w, p := Advance(p, w, Work(g.Value(), calls, url, err));
        if err != [] { return; }
      }
      url, err := Do(g, PollFailures, url);
      w, p := Advance(p, w, Work(g.Value(), calls, url, err));
      if err != [] { return; }
      SamePlan(deps, old(g.Value()), g.Value());
      url, err := StartExecution(g, url);
    }

    /** Workers, lifecycle, and only then the URL. */
    method StartExecution(g: GenerationObject, origin: string) returns (url: string, err: Error)
      modifies g, this`calls
      ensures Work(g.Value(), calls, url, err)
              == Perform(deps, WorkersPlan(old(g.Value())), Work(old(g.Value()), old(calls), origin, []), env)
    {
      hide Attempt, Perform;
      url := origin;
      ghost var w, p := Work(g.Value(), calls, url, []), WorkersPlan(g.Value());
      if g.has.workers {
        url, err := Do(g, StartWorkers, url);
        w, p := Advance(p, w, Work(g.Value(), calls, url, err));
        if err != [] { return; }
      }
      if g.has.lifecycle {
        url, err := Do(g, PollFailures, url);
        w, p := Advance(p, w, Work(g.Value(), calls, url, err));
        if err != [] { return; }
        url, err := Do(g, Resume, url);
        w, p := Advance(p, w, Work(g.Value(), calls, url, err));
        if err != [] { return; }
        url, err := Do(g, Heartbeat, url);
        w, p := Advance(p, w, Work(g.Value(), calls, url, err));
        if err != [] { return; }
        url, err := Do(g, PollFailures, url);
        w, p := Advance(p, w, Work(g.Value(), calls, url, err));
        if err != [] { return; }
        Infallibly(deps, w, StartHeartbeatLoop, env);
        url, err := Do(g, StartHeartbeatLoop, url);
        w, p := Advance(p, w, Work(g.Value(), calls, url, err));
      }
      url, err := PublishUrl(g, url);
    }

    method PublishUrl(g: GenerationObject, origin: string) returns (url: string, err: Error)
      modifies g, this`calls
      ensures Work(g.Value(), calls, url, err)
              == Perform(deps, PublishPlan(), Work(old(g.Value()), old(calls), origin, []), env)
    {
      hide Attempt, Perform;
      url := origin;
      ghost var w, p := Work(g.Value(), calls, url, []), PublishPlan();
      url, err := Do(g, PollFailures, url);
      w, p := Advance(p, w, Work(g.Value(), calls, url, err));
      if err != [] { return; }
      url, err := Do(g, Publish, url);
      w, p := Advance(p, w, Work(g.Value(), calls, url, err));
      Ended(deps, p, w, env);
    }

    // -------------------------------------------------------------- transitions

    method TeardownCurrent(pause: bool) returns (remote: Error, local: Error)
      requires Valid() && generation != null
      modifies generation, this`calls
      ensures Valid() && Cleanup(Model(), remote, local) == Demolish(old(Model()), slot.value, pause, env)
    {
      hide Teardown;
      remote, local := TeardownGeneration(generation, pause);
      assert Values(all) == old(Values(all))[slot.value := generation.Value()];
    }

    method Clear()
      requires Valid()
      modifies this`generation, this`slot
      ensures Valid() && Model() == old(Model()).(slot := None)
    {
      generation, slot := null, None;
    }

    method SetGeneration(g: GenerationObject)
      requires Valid() && |all| > 0 && all[|all| - 1] == g
      modifies this`generation, this`slot
      ensures Valid() && generation == g && Model() == old(Model()).(slot := Some(|all| - 1))
    {
      generation, slot := g, Some(|all| - 1);
    }

    method RollBack(cause: Error) returns (err: Error)
      requires Valid()
      modifies this, generation
      ensures Valid() && Outcome(Model(), err) == Rollback(old(Model()), cause, env)
    {
      hide Teardown, Update;
      if generation == null {
        err := Failed(DesiredRunning, cause);
        return;
      }
      var remote, local := TeardownCurrent(true);
      if local == [] && generation.LocalResourcesClosed() { Clear(); }
      var combined := cause + remote + local;
      var stateErr := UpdateState(State(DesiredRunning, ActualFailed, combined));
      err := combined + stateErr;
    }

    method MonitorGeneration()
      requires Valid() && generation != null
      modifies generation`watch
      ensures Valid() && Model() == Monitored(old(Model()), slot.value)
    {
      generation.watch := generation.watch.(monitors := generation.watch.monitors + 1);
      assert Values(all) == old(Values(all))[slot.value := generation.Value()];
    }

    method ActivateCurrent() returns (err: Error)
      requires Valid() && generation != null
      modifies generation, this`calls
      ensures Valid() && var w := Activate(deps, old(Model()).gens[slot.value], old(calls), env);
                         err == w.err && Model() == old(Model()).(gens := old(Model()).gens[slot.value := w.g],
                                                                  clock := w.clock)
    {
      hide Activate;
      var _, activateErr := ActivateGeneration(generation);
      err := activateErr;
      assert Values(all) == old(Values(all))[slot.value := generation.Value()];
    }

    /** Activation, the saved state and the monitor, in this order. */
    method LaunchCurrent(running: State) returns (err: Error)
      requires Valid() && generation != null
      modifies this, generation
      ensures Valid() && Outcome(Model(), err) == Launch(deps, old(Model()), old(slot).value, running, env)
    {
      hide Activate, Update, Rollback, Monitored;
      err := ActivateCurrent();
      if err != [] {
        err := RollBack(err);
        return;
      }
      err := UpdateState(running);
      if err != [] {
        err := RollBack(err);
        return;
      }
      MonitorGeneration();
    }

    method CreateAndLaunchWith(cfg: Config) returns (err: Error)
      requires Valid() && generation == null
      modifies this
      ensures Valid() && Outcome(Model(), err) == CreateAndLaunch(deps, old(Model()), cfg, env)
    {
      hide Create, Launch, Fail;
      var g;
      g, err := NewGeneration(cfg);
      if err != [] {
        err := Failed(DesiredRunning, err);
        return;
      }
      SetGeneration(g);
      err := LaunchCurrent(State(state.desired, ActualRunning, state.lastError));
    }

    method LoadAndLaunchNew() returns (err: Error)
      requires Valid() && generation == null
      modifies this
      ensures Valid() && Outcome(Model(), err) == LoadAndLaunch(deps, old(Model()), env)
    {
      hide CreateAndLaunch, Fail;
      var loaded := env(calls);
      calls := calls + 1;
      if !loaded.ok {
        err := Failed(DesiredRunning, [CallFailed(LoadConfig)]);
        return;
      }
      var valid := env(calls);
      calls := calls + 1;
      if !valid.ok {
        err := Failed(DesiredRunning, [CallFailed(ValidateConfig)]);
        return;
      }
      err := CreateAndLaunchWith(loaded.cfg);
    }

    method StartWhileLocked(restoreOnPersistenceFailure: bool) returns (err: Error)
      requires Valid()
      modifies this, generation
      ensures Valid() && Outcome(Model(), err) == StartLocked(deps, old(Model()), restoreOnPersistenceFailure, env)
    {
      hide Demolish, LoadAndLaunch, Fail, Update;
      var previous := state;
      err := UpdateState(State(DesiredRunning, ActualStarting, []));
      if err != [] {
        if restoreOnPersistenceFailure {
          state := previous;
        } else {
          var stateErr := UpdateState(State(DesiredRunning, ActualFailed, err));
          err := err + stateErr;
        }
        return;
      }
      if generation != null && generation.executing {
        err := UpdateState(state.(actual := ActualRunning));
        return;
      }
      if generation != null {
        var _, local := TeardownCurrent(false);
        if local != [] {
          err := Failed(DesiredRunning, local);
          return;
        }
        if !generation.LocalResourcesClosed() {
          err := Failed(DesiredRunning, [StillOwnsResources]);
          return;
        }
        Clear();
      }
      err := LoadAndLaunchNew();
    }

    method StartRuntime() returns (err: Error)
      requires Valid()
      modifies this, generation
      ensures Valid() && Outcome(Model(), err) == Start(deps, old(Model()), env)
    {
      hide StartLocked;
      err := StartWhileLocked(true);
    }

    method StopRuntime() returns (err: Error)
      requires Valid()
      modifies this, generation
      ensures Valid() && Outcome(Model(), err) == Stop(old(Model()), env)
    {
      hide Demolish, Update;
      var stateErr := UpdateState(State(DesiredStopped, ActualStopping, []));
      if generation == null {
        var finalErr := UpdateState(state.(actual := ActualStopped));
        return stateErr + finalErr;
      }
      var remote, local := TeardownCurrent(true);
      if local == [] && generation.LocalResourcesClosed() {
        Clear();
        var finalErr := UpdateState(State(DesiredStopped, ActualStopped, remote));
        return stateErr + remote + finalErr;
      }
      var finalErr := UpdateState(State(DesiredStopped, ActualFailed, remote + local));
      err := stateErr + remote + local + finalErr;
    }

    method RestartRuntime() returns (err: Error)
      requires Valid()
      modifies this, generation
      ensures Valid() && Outcome(Model(), err) == Restart(deps, old(Model()), env)
    {
      hide Demolish, StartLocked, Fail, Update;
      var previous := state;
      err := UpdateState(State(DesiredRunning, ActualStopping, []));
      if err != [] {
        state := previous;
        return;
      }
      if generation != null {
        var remote, local := TeardownCurrent(true);
        if local != [] {
          err := Failed(DesiredRunning, remote + local);
          return;
        }
        if !generation.LocalResourcesClosed() {
          err := Failed(DesiredRunning, [StillOwnsResources]);
          return;
        }
        Clear();
      }
      err := StartWhileLocked(false);
    }

    /** A new configuration while the runtime is to be stopped, or to be running. */
    method ReconcileWith(cfg: Config) returns (err: Error)
      requires Valid()
      modifies this, generation
      ensures Valid() && Outcome(Model(), err) == Reconcile(deps, old(Model()), cfg, env)
    {
      hide Demolish, Replace, Fail, Update;
      if state.desired == DesiredStopped {
        err := ReconcileStopped();
        return;
      }
      if generation != null {
        var remote, local := TeardownCurrent(true);
        if local != [] {
          err := Failed(DesiredRunning, remote + local);
          return;
        }
        if !generation.LocalResourcesClosed() {
          err := Failed(DesiredRunning, [StillOwnsResources]);
          return;
        }
        Clear();
        if remote != [] {
          err := Failed(DesiredRunning, remote);
          return;
        }
      }
      err := ReplaceWith(cfg);
    }

    method ReconcileStopped() returns (err: Error)
      requires Valid() && state.desired == DesiredStopped
      modifies this, generation
      ensures Valid() && forall cfg :: Outcome(Model(), err) == Reconcile(deps, old(Model()), cfg, env)
    {
      hide Demolish, Replace, Fail, Update;
      if generation != null {
        var remote, local := TeardownCurrent(false);
        if local != [] || !generation.LocalResourcesClosed() {
          if local == [] { local := [StillOwnsResources]; }
          err := Failed(DesiredStopped, remote + local);
          return;
        }
        Clear();
      }
      err := UpdateState(State(state.desired, ActualStopped, []));
    }

    method ReplaceWith(cfg: Config) returns (err: Error)
      requires Valid() && generation == null
      modifies this
      ensures Valid() && Outcome(Model(), err) == Replace(deps, old(Model()), cfg, env)
    {
      hide CreateAndLaunch, Fail, Update;
      err := UpdateState(State(state.desired, ActualStopped, []));
      if err != [] {
        err := Failed(DesiredRunning, err);
        return;
      }
      err := CreateAndLaunchWith(cfg);
    }

    method CloseRuntime() returns (err: Error)
      requires Valid()
      modifies this, generation
      ensures Valid() && Outcome(Model(), err) == Close(old(Model()), env)
    {
      hide Demolish, Update;
      var desired := state.desired;
      if generation == null {
        err := UpdateState(state.(actual := ActualStopped));
        return;
      }
      var remote, local := TeardownCurrent(true);
      if local == [] && generation.LocalResourcesClosed() {
        Clear();
        var finalErr := UpdateState(State(desired, ActualStopped, remote));
        return remote + finalErr;
      }
      var finalErr := UpdateState(State(desired, ActualFailed, remote + local));
      err := remote + local + finalErr;
    }

    method RequestRuntimeStart() returns (err: Error)
      requires Valid()
      modifies this`state, this`saves, this`calls
      ensures Valid() && Outcome(Model(), err) == RequestStart(old(Model()), env)
    {
      var actual := state.actual;
      if actual == ActualFailed { actual := ActualStopped; }
      err := UpdateState(State(DesiredRunning, actual, []));
    }

    // -------------------------------------------------------------- light applies

    method AskCurrent(c: Call) returns (err: Error)
      requires Valid() && generation != null
      modifies generation, this`calls
      ensures Valid() && Outcome(Model(), err) == Ask(old(Model()), slot.value, c, env)
    {
      hide Record;
      var ok := AskObject(generation, c);
      err := if ok then [] else [CallFailed(c)];
      assert Values(all) == old(Values(all))[slot.value := generation.Value()];
    }

    method AskObject(g: GenerationObject, c: Call) returns (ok: bool)
      modifies g, this`calls
      ensures ok == env(old(calls)).ok && calls == old(calls) + 1
      ensures g.Value() == Asked(old(g.Value()), c, env(old(calls)), old(calls))
    {
      var answered, effect := Invoke(g, c);
      ok := answered;
      g.MarkRegistered(c.RegisterCandidate? && (ok || effect));
    }

    method AskCurrentIf(wanted: bool, c: Call) returns (err: Error)
      requires Valid() && generation != null
      modifies generation, this`calls
      ensures Valid() && Outcome(Model(), err) == AskIf(wanted, old(Model()), slot.value, c, env)
    {
      hide Ask;
      err := [];
      if wanted { err := AskCurrent(c); }
    }

    method AdoptConfig(cfg: Config, url: string)
      requires Valid() && generation != null
      modifies generation
      ensures Valid() && Model() == Adopt(old(Model()), slot.value, cfg, url)
    {
      generation.active, generation.publicURL := cfg, url;
      assert Values(all) == old(Values(all))[slot.value := generation.Value()];
    }

    method ApplyLightly(checked: bool, check: Call, cfg: Config, url: string) returns (err: Error)
      requires Valid() && generation != null && generation.executing
      modifies generation, this`calls
      ensures Valid() && Outcome(Model(), err) == LightApply(deps, old(Model()), checked, check, cfg, url, env)
    {
      hide AskIf, Adopt;
      err := AskCurrentIf(checked, check);
      if err != [] { return; }
      err := AskCurrentIf(deps.register, RegisterCandidate);
      if err != [] { return; }
      AdoptConfig(cfg, url);
    }

    method ApplyInventoryOf(cfg: Config) returns (err: Error)
      requires Valid()
      modifies this, generation
      ensures Valid() && Outcome(Model(), err) == ApplyInventory(deps, old(Model()), cfg, env)
    {
      hide LightApply;
      if generation == null || !generation.executing { return [NotRunning]; }
      var candidates := [];
      if deps.devices { candidates := ChangedEnabledPhysicalDevices(generation.active, cfg); }
      err := ApplyLightly(candidates != [], ValidateDevices, cfg, generation.publicURL);
    }

    method ApplyEndpointOf(cfg: Config) returns (err: Error)
      requires Valid()
      modifies this, generation
      ensures Valid() && Outcome(Model(), err) == ApplyEndpoint(deps, old(Model()), cfg, env)
    {
      hide LightApply;
      if generation == null || !generation.executing { return [NotRunning]; }
      var candidate := generation.publicURL;
      if cfg.manual { candidate := cfg.publicURL; }
      err := ApplyLightly(deps.verify, VerifyCandidate, cfg, candidate);
    }

    // -------------------------------------------------------------- component failures

    /** A watched component of some generation, current or not, fails. */
    method ForwardFailure(ghost id: nat, g: GenerationObject)
      requires Valid() && id < |all| && all[id] == g && g.built
      modifies g`watch
      ensures Valid() && Model() == ComponentFails(old(Model()), id)
    {
      g.watch := g.watch.(fatal := true, forwarded := true);
      assert Values(all) == old(Values(all))[id := g.Value()];
    }

    method ReceiveFailure(ghost id: nat, g: GenerationObject)
      requires Valid() && id < |all| && all[id] == g && g.watch.fatal && g.watch.monitors > 0
      modifies g`watch
      ensures Valid() && Model() == MonitorReceives(old(Model()), id)
    {
      g.watch := g.watch.(fatal := false, monitors := g.watch.monitors - 1, inFlight := g.watch.inFlight + 1);
      assert Values(all) == old(Values(all))[id := g.Value()];
    }

    method HandleGenerationFailure(ghost id: nat, g: GenerationObject)
      requires Valid() && id < |all| && all[id] == g && g.watch.inFlight > 0
      modifies this, g
      ensures Valid() && Model() == MonitorHandles(old(Model()), id, env)
    {
      hide Demolish, Update;
      g.watch := g.watch.(inFlight := g.watch.inFlight - 1);
      assert Values(all) == old(Values(all))[id := g.Value()];
      if generation != g || !g.executing { return; }
      var remote, local := TeardownCurrent(true);
      if local == [] && g.LocalResourcesClosed() { Clear(); }
      var _ := UpdateState(State(DesiredRunning, ActualFailed, [ComponentFailed] + remote + local));
    }

    /** One call carried out brings the plan one call further. */
    lemma Advance(p: Plan, w: Work, n: Work) returns (w': Work, p': Plan)
      requires p.Then? && w.err == [] && n == Attempt(deps, w, p.call, env)
      ensures w' == n && p' == p.rest && Perform(deps, p, w, env) == Perform(deps, p', w', env)
      ensures n.err != [] ==> Perform(deps, p, w, env) == n
    {
      w', p' := n, p.rest;
      Unfold(deps, p, w, env);
      if n.err != [] { Stopped(deps, p', w', env); }
    }
  }

  /** The devices that have to be validated before an inventory becomes active. */
  method ChangedEnabledPhysicalDevices(active: Config, candidate: Config) returns (changed: seq<Device>)
    ensures changed == ChangedPhysical(active, candidate)
  {
    var previous: map<string, Device> := map[];
    for i := 0 to |active.devices|
      invariant forall id :: id in previous <==> Previous(active.devices[..i], id).Some?
      invariant forall id :: id in previous ==> previous[id] == Previous(active.devices[..i], id).value
    {
      assert active.devices[..i + 1][..i] == active.devices[..i];
      previous := previous[active.devices[i].id := active.devices[i]];
    }
    assert active.devices[..|active.devices|] == active.devices;
    changed := [];
    for i := 0 to |candidate.devices|
      invariant changed == ChangedAmong(active, candidate.devices[..i])
    {
      var device := candidate.devices[i];
      assert candidate.devices[..i + 1][..i] == candidate.devices[..i];
      if device.enabled && device.physical {
        if device.id !in previous || !Unchanged(Some(previous[device.id]), device) {
          changed := changed + [device];
        }
      }
    }
    assert candidate.devices[..|candidate.devices|] == candidate.devices;
  }

  /** The rest of an activation depends only on the parts a generation has. */
  lemma SamePlan(d: Deps, g: Gen, h: Gen)
    requires g.has == h.has
    ensures CapabilityPlan(d, g) == CapabilityPlan(d, h) && EndpointPlan(d, g) == EndpointPlan(d, h)
    ensures WorkersPlan(g) == WorkersPlan(h)
  {
  }

  lemma Infallibly(d: Deps, w: Work, c: Call, env: Env)
    requires Infallible(c) && !c.PollFailures?
    ensures Attempt(d, w, c, env).err == []
  {
  }

  lemma Ended(d: Deps, p: Plan, w: Work, env: Env)
    requires p.Done?
    ensures Perform(d, p, w, env) == w
  {
  }
}
