/** Invariants of the supervisor over every run and every environment. */
module SupervisorProofs {
  import opened Wrappers
  import opened Generation
  import opened GenerationProofs
  import opened SupervisorSpec

  // ---------------------------------------------------------------- one generation between transitions

  /** The order in which a generation is activated, from its last stage to its first. */
  function LifecycleOrder(d: Deps): seq<Call> {
    (if d.lifecycle then [Resume, Heartbeat, StartHeartbeatLoop] else []) + [Publish]
  }
  function WorkersOrder(d: Deps): seq<Call> { (if d.workers then [StartWorkers] else []) + LifecycleOrder(d) }
  function RegistrationOrder(d: Deps): seq<Call> { (if d.register then [Register] else []) + WorkersOrder(d) }
  function EndpointOrder(d: Deps): seq<Call> { (if d.verify then [VerifyEndpoint] else []) + RegistrationOrder(d) }
  function CapabilityOrder(d: Deps): seq<Call> {
    (if d.capabilities then [CheckCapabilities] else []) + EndpointOrder(d)
  }
  function EdgeOrder(d: Deps): seq<Call> { (if d.edge then [LocalOrigin, StartEdge] else []) + CapabilityOrder(d) }
  function ActivationOrder(d: Deps): seq<Call> { [StartApi] + EdgeOrder(d) }

  function Supplied(d: Deps): Parts { Parts(true, d.edge, d.observability, d.workers, d.lifecycle) }

  lemma {:induction false} LifecycleFollows(d: Deps, g: Gen)
    requires g.has.lifecycle == d.lifecycle
    ensures PlanSteps(LifecyclePlan(g)) == LifecycleOrder(d)
  {
    assert PlanSteps(PublishPlan()) == [Publish];
    if d.lifecycle {
      assert PlanSteps(LoopPlan()) == [StartHeartbeatLoop, Publish];
      assert PlanSteps(HeartbeatPlan()) == [Heartbeat, StartHeartbeatLoop, Publish];
    }
  }

  lemma {:induction false} RegistrationFollows(d: Deps, g: Gen)
    requires g.has == Supplied(d)
    ensures PlanSteps(RegistrationPlan(d, g)) == RegistrationOrder(d)
  {
    hide LifecyclePlan, LifecycleOrder;
    LifecycleFollows(d, g);
    assert PlanSteps(WorkersPlan(g)) == WorkersOrder(d);
    hide WorkersPlan, WorkersOrder;
    assert PlanSteps(Then(PollFailures, WorkersPlan(g))) == WorkersOrder(d);
  }

  lemma {:induction false} CapabilityFollows(d: Deps, g: Gen)
    requires g.has == Supplied(d)
    ensures PlanSteps(CapabilityPlan(d, g)) == CapabilityOrder(d)
  {
    hide RegistrationPlan, RegistrationOrder;
    RegistrationFollows(d, g);
    assert PlanSteps(Then(PollFailures, RegistrationPlan(d, g))) == RegistrationOrder(d);
    assert PlanSteps(EndpointPlan(d, g)) == EndpointOrder(d);
  }

  lemma {:induction false} StartEdgeFollows(d: Deps, g: Gen)
    requires g.has == Supplied(d)
    ensures PlanSteps(StartEdgePlan(d, g)) == [StartEdge] + CapabilityOrder(d)
  {
    hide CapabilityPlan, CapabilityOrder;
    CapabilityFollows(d, g);
  }

  lemma {:induction false} EdgeFollows(d: Deps, g: Gen)
    requires g.has == Supplied(d)
    ensures PlanSteps(EdgePlan(d, g)) == EdgeOrder(d)
  {
    hide CapabilityPlan, CapabilityOrder, StartEdgePlan;
    CapabilityFollows(d, g);
    StartEdgeFollows(d, g);
  }

  lemma {:induction false} PlanFollowsOrder(d: Deps, g: Gen)
    requires g.has == Supplied(d)
    ensures PlanSteps(ActivationPlan(d, g)) == ActivationOrder(d)
  {
    hide EdgePlan, EdgeOrder;
    EdgeFollows(d, g);
  }

  // ---------------------------------------------------------------- one generation

  /** What holds of a completed generation whatever was done to it. */
  ghost predicate Core(d: Deps, g: Gen, clock: nat) {
    && Sound(d, g, clock) && g.built && g.has == Supplied(d) && !Phantom(g) && g.log != []
    && FailStops(g.log) && Steps(g.log) <= ActivationOrder(d)
    && (Has(g.log, Resume) ==> g.registered && g.has.lifecycle)
  }

  predicate InUse(g: Gen) {
    !g.closed.api && !g.closed.context && (g.has.edge ==> !g.closed.edge)
    && (g.has.observability ==> !g.closed.observability)
  }

  /** What holds of it between transitions: an executing generation went through
      its whole activation and holds its resources, and one that is not executing
      was paused after every resume. */
  ghost predicate Settled(d: Deps, g: Gen, clock: nat) {
    && Core(d, g, clock)
    && (g.executing ==> Steps(g.log) == ActivationOrder(d) && StepsSucceeded(g.log) && InUse(g))
    && (!g.executing ==> ResumesArePaused(g.log))
  }

  /** An executing generation has exactly one monitor, waiting or with a failure in
      hand, and no failure forwarded to it is lost. */
  predicate Watched(g: Gen) {
    g.executing ==>
      g.watch.monitors + g.watch.inFlight == 1 && (g.watch.forwarded ==> g.watch.fatal || g.watch.inFlight > 0)
  }

  /** Just constructed. */
  ghost predicate Ready(d: Deps, g: Gen, clock: nat) {
    && Activating(d, Work(g, clock, "", [])) && g.built && g.has == Supplied(d) && !Phantom(g) && g.log != []
    && Steps(g.log) == [] && StepsSucceeded(g.log) && g.watch == Watch(false, false, 0, 0) && !Has(g.log, Resume)
    && (!d.register ==> g.registered)
  }

  lemma NoneHad(log: seq<Event>, c: Call)
    requires !Constructor(c) && forall i :: 0 <= i < |log| ==> Constructor(log[i].call)
    ensures !Has(log, c)
  {
  }

  lemma Completing(d: Deps, g: Gen)
    requires Held(g) && PauseSound(d, g)
    ensures Held(g.(built := true)) && PauseSound(d, g.(built := true))
  {
  }

  lemma {:induction false} ConstructionIsReady(d: Deps, cfg: Config, clock: nat, env: Env)
    requires Wired(env)
    ensures var w := Construct(d, cfg, clock, env);
            && clock <= w.clock && !w.g.executing && w.g.watch == Watch(false, false, 0, 0)
            && (w.err == [] ==> Ready(d, w.g.(built := true), w.clock))
            && (forall i :: 0 <= i < |w.g.log| ==> w.g.log[i].at >= clock)
            && Sound(d, w.g, w.clock) && !w.g.built
  {
    hide Construct, Held, PauseSound, Steps, StepsSucceeded, Timed, Has, ReleasedOnce;
    ConstructionOutcome(d, cfg, clock, env);
    var w := Construct(d, cfg, clock, env);
    HeldIsSound(d, w.g);
    if w.err == [] {
      Completing(d, w.g);
      NoneHad(w.g.log, Resume);
      NoneHad(w.g.log, Pause);
    }
  }

  /** The steps of an activation are a prefix of the order, all of it if and only if
      no error ended it, and all but the last succeeded. */
  lemma {:induction false} ActivationInOrder(d: Deps, g: Gen, clock: nat, env: Env)
    requires Steps(g.log) == [] && StepsSucceeded(g.log) && g.has == Supplied(d)
    ensures var w := Activate(d, g, clock, env);
            && clock <= w.clock && g.log <= w.g.log && FailStops(w.g.log) && Steps(w.g.log) <= ActivationOrder(d)
            && (w.err == [] ==> Steps(w.g.log) == ActivationOrder(d) && StepsSucceeded(w.g.log))
  {
    hide Perform, Reached, Steps, StepsSucceeded, FailStops, ActivationPlan, ActivationOrder, PlanSteps;
    var p, w := ActivationPlan(d, g), Work(g, clock, "", []);
    PerformExtends(d, p, w, env);
    PerformStops(d, p, w, env);
    ReachedIsLogged(d, p, w, env);
    ReachedInOrder(d, p, w, env);
    PlanFollowsOrder(d, g);
  }

  /** An activation either leaves the generation settled and executing, or something
      that still has to be rolled back. */
  lemma {:induction false} ActivationSettles(d: Deps, g: Gen, clock: nat, env: Env)
    requires Ready(d, g, clock)
    ensures var w := Activate(d, g, clock, env);
            && Core(d, w.g, w.clock)
            && (w.err == [] <==> w.g.executing)
            && (w.err == [] ==> Settled(d, w.g, w.clock))
            && (w.err == [] ==>
                 w.g.watch.monitors + w.g.watch.inFlight == 0 && (w.g.watch.forwarded ==> w.g.watch.fatal))
            && (w.err != [] ==> w.g.publicURL == g.publicURL)
  {
    hide Perform, Held, PauseSound, Timed, Has, Steps, StepsSucceeded, FailStops, ResumesArePaused, InUse, ReleasedOnce;
    hide Shape;
    hide ActivationPlan, ActivationOrder;
    ActivationPlanSuits(d, g);
    ActivationInOrder(d, g, clock, env);
    PerformActivating(d, ActivationPlan(d, g), Work(g, clock, "", []), env);
    HeldIsSound(d, Activate(d, g, clock, env).g);
  }

  lemma HeldIsSound(d: Deps, g: Gen)
    requires Held(g.(executing := false)) && PauseSound(d, g.(executing := false))
    ensures Shape(g) && ReleasedOnce(g) && PauseSound(d, g) && (g.has.api && !g.closed.context ==> InUse(g))
  {
  }

  lemma {:induction false} StillPaused(log: seq<Event>, more: seq<Event>)
    requires Continues(log, more) && (ResumesArePaused(log) || (|more| > |log| && more[|log|].call == Pause))
    ensures ResumesArePaused(more)
  {
    forall i | 0 <= i < |more| && more[i].call.Resume? ensures Has(more[i + 1..], Pause) {
      assert i < |log| && log[i] == more[i];
      if ResumesArePaused(log) {
        var k :| 0 <= k < |log[i + 1..]| && log[i + 1..][k].call == Pause;
        assert more[i + 1..][k] == log[i + 1..][k];
      } else {
        assert more[i + 1..][|log| - i - 1] == more[|log|];
      }
    }
  }

  lemma NeverHad(log: seq<Event>, c: Call)
    requires !Has(log, c)
    ensures c == Resume ==> ResumesArePaused(log)
  {
  }

  lemma StillHas(log: seq<Event>, more: seq<Event>)
    requires Continues(log, more)
    ensures Has(more, Resume) <==> Has(log, Resume)
  {
  }

  /** A teardown settles a generation if it may pause, or if there was nothing left
      to pause. */
  lemma {:induction false} TeardownSettles(d: Deps, g: Gen, clock: nat, pause: bool, env: Env)
    requires Core(d, g, clock) && (pause || ResumesArePaused(g.log))
    ensures var t := Teardown(g, clock, pause, env);
            && Settled(d, t.g, t.clock) && !t.g.executing && clock <= t.clock && g.log <= t.g.log
            && t.g.watch == g.watch
            && (Closed(t.g) <==> t.local == [])
  {
    hide Teardown, Sound, Steps, Has, FailStops, ResumesArePaused, ActivationOrder, Continues;
    var t := Teardown(g, clock, pause, env);
    TeardownSound(d, g, clock, pause, env);
    SoundShape(d, g, clock);
    NilErrorMeansClosed(g, clock, pause, env);
    ContinuesSteps(g.log, t.g.log);
    ContinuesStops(g.log, t.g.log);
    StillHas(g.log, t.g.log);
    if !Has(g.log, Resume) { NeverHad(g.log, Resume); }
    StillPaused(g.log, t.g.log);
  }

  lemma SoundShape(d: Deps, g: Gen, clock: nat)
    requires Sound(d, g, clock)
    ensures Shape(g)
  {
  }

  // ---------------------------------------------------------------- the whole supervisor

  /** The API of `g` was shut down before anything was done for `h`. */
  ghost predicate ShutBefore(g: Gen, h: Gen) {
    exists i ::
      0 <= i < |g.log| && g.log[i].call.ShutdownApi? && g.log[i].ok && h.log != [] && g.log[i].at < h.log[0].at
  }

  /** No two completed generations hold an API at the same time. */
  ghost predicate Exclusive(s: Sup) {
    forall j, k :: 0 <= j < k < |s.gens| && s.gens[j].built && s.gens[k].built ==> ShutBefore(s.gens[j], s.gens[k])
  }

  /** Generations that are not in the slot: completed ones are closed, the others
      were never used. */
  ghost predicate Retired(d: Deps, g: Gen, clock: nat) {
    !g.executing && (if g.built then Settled(d, g, clock) && Closed(g) else g.watch == Watch(false, false, 0, 0))
  }

  ghost predicate OthersRetired(d: Deps, s: Sup) {
    && SlotValid(s) && (s.slot.Some? ==> s.gens[s.slot.value].built) && Exclusive(s)
    && forall id :: 0 <= id < |s.gens| && s.slot != Some(id) ==> Retired(d, s.gens[id], s.clock)
  }

  /** During a transition: the generation in the slot may still have to be paused. */
  ghost predicate Underway(d: Deps, s: Sup) {
    OthersRetired(d, s) && (s.slot.Some? ==> Core(d, s.gens[s.slot.value], s.clock))
  }

  ghost predicate Quiet(d: Deps, s: Sup) {
    OthersRetired(d, s)
    && (s.slot.Some? ==> Settled(d, s.gens[s.slot.value], s.clock) && Watched(s.gens[s.slot.value]))
  }

  /** The invariant between transitions. */
  ghost predicate Inv(d: Deps, s: Sup) {
    && SlotValid(s) && Quiet(d, s)
    && (s.st.actual.ActualRunning? <==> Executing(s))
    && (Executing(s) ==> s.st.desired.DesiredRunning?)
  }

  lemma {:induction false} Later(d: Deps, g: Gen, clock: nat, later: nat)
    requires clock <= later
    ensures Core(d, g, clock) ==> Core(d, g, later)
    ensures Settled(d, g, clock) ==> Settled(d, g, later)
    ensures Retired(d, g, clock) ==> Retired(d, g, later)
  {
    hide Steps, Has, FailStops, ResumesArePaused, ActivationOrder, StepsSucceeded, PauseSound, ReleasedOnce, InUse;
  }

  lemma {:induction false} ShutStays(g: Gen, h: Gen, g': Gen, h': Gen)
    requires ShutBefore(g, h) && g.log <= g'.log && h.log <= h'.log
    ensures ShutBefore(g', h')
  {
    var i :| 0 <= i < |g.log| && g.log[i].call.ShutdownApi? && g.log[i].ok && h.log != [] && g.log[i].at < h.log[0].at;
    assert g'.log[i] == g.log[i] && h'.log[0] == h.log[0];
  }

  /** Work on the generation in the slot leaves the others alone. */
  lemma {:induction false} OthersStay(d: Deps, s: Sup, s': Sup)
    requires OthersRetired(d, s) && s.slot.Some? && s'.slot == s.slot && s.clock <= s'.clock
    requires |s'.gens| == |s.gens| && s'.gens == s.gens[s.slot.value := s'.gens[s.slot.value]]
    requires s'.gens[s.slot.value].built && s.gens[s.slot.value].log <= s'.gens[s.slot.value].log
    ensures OthersRetired(d, s')
  {
    hide Retired, ShutBefore;
    forall id | 0 <= id < |s'.gens| && s'.slot != Some(id) ensures Retired(d, s'.gens[id], s'.clock) {
      Later(d, s.gens[id], s.clock, s'.clock);
    }
    forall j, k | 0 <= j < k < |s'.gens| && s'.gens[j].built && s'.gens[k].built
      ensures ShutBefore(s'.gens[j], s'.gens[k])
    {
      ShutStays(s.gens[j], s.gens[k], s'.gens[j], s'.gens[k]);
    }
  }

  lemma {:induction false} OthersLater(d: Deps, s: Sup, s': Sup)
    requires OthersRetired(d, s) && s'.slot == s.slot && s.clock <= s'.clock && s'.gens == s.gens
    ensures OthersRetired(d, s')
  {
    hide Retired, ShutBefore;
    forall id | 0 <= id < |s'.gens| && s'.slot != Some(id) ensures Retired(d, s'.gens[id], s'.clock) {
      Later(d, s.gens[id], s.clock, s'.clock);
    }
  }

  lemma {:induction false} QuietLater(d: Deps, s: Sup, s': Sup)
    requires Quiet(d, s) && s'.slot == s.slot && s.clock <= s'.clock && s'.gens == s.gens
    ensures Quiet(d, s')
  {
    hide Retired, Exclusive, Settled, Watched;
    OthersLater(d, s, s');
    if s.slot.Some? { Later(d, s.gens[s.slot.value], s.clock, s'.clock); }
  }

  /** A generation whose teardown closed it leaves the slot. */
  lemma {:induction false} Vacate(d: Deps, s: Sup)
    requires Quiet(d, s) && s.slot.Some? && Closed(s.gens[s.slot.value]) && !s.gens[s.slot.value].executing
    ensures Quiet(d, s.(slot := None))
  {
    hide Settled, ShutBefore;
  }

  // ---------------------------------------------------------------- transitions keep the invariant

  lemma {:induction false} DemolishQuiet(d: Deps, s: Sup, pause: bool, env: Env)
    requires Underway(d, s) && s.slot.Some? && (pause || ResumesArePaused(s.gens[s.slot.value].log))
    ensures var c := Demolish(s, s.slot.value, pause, env);
            && Quiet(d, c.s) && !Executing(c.s) && c.s.slot == s.slot && c.s.st == s.st && c.s.saves == s.saves
            && (Closed(c.s.gens[s.slot.value]) <==> c.local == [])
            && (c.local == [] ==> Quiet(d, c.s.(slot := None)))
  {
    hide Teardown, Settled, Core, Retired, Exclusive, ResumesArePaused, Closed;
    var id := s.slot.value;
    TeardownSettles(d, s.gens[id], s.clock, pause, env);
    var c := Demolish(s, id, pause, env);
    SettledIsBuilt(d, c.s.gens[id], c.s.clock);
    OthersStay(d, s, c.s);
    if c.local == [] { Vacate(d, c.s); }
  }

  lemma {:induction false} SettledIsBuilt(d: Deps, g: Gen, clock: nat)
    requires Settled(d, g, clock)
    ensures g.built && Core(d, g, clock) && (!g.executing ==> ResumesArePaused(g.log)) && (g.executing ==> !Closed(g))
  {
    hide Sound, Steps, Has, FailStops, ResumesArePaused, ActivationOrder, StepsSucceeded;
  }

  lemma {:induction false} QuietUnderway(d: Deps, s: Sup)
    requires Quiet(d, s)
    ensures Underway(d, s) && (s.slot.Some? && !Executing(s) ==> ResumesArePaused(s.gens[s.slot.value].log))
  {
    hide Settled, Core, Retired, Exclusive, ResumesArePaused;
    if s.slot.Some? { SettledIsBuilt(d, s.gens[s.slot.value], s.clock); }
  }

  lemma {:induction false} UpdateQuiet(d: Deps, s: Sup, next: State, env: Env)
    requires Quiet(d, s)
    ensures Quiet(d, Update(s, next, env).s) && Executing(Update(s, next, env).s) == Executing(s)
  {
    hide Retired, Exclusive, Settled, Watched;
    QuietLater(d, s, Update(s, next, env).s);
  }

  lemma {:induction false} FailInv(d: Deps, s: Sup, desired: Desired, err: Error, env: Env)
    requires Quiet(d, s) && !Executing(s)
    ensures var r := Fail(s, desired, err, env);
            Inv(d, r.s) && r.s.st.desired == desired && !Executing(r.s) && (err != [] ==> r.err != [])
  {
    hide Retired, Exclusive, Settled, Watched;
    UpdateQuiet(d, s, State(desired, ActualFailed, err), env);
  }

  lemma {:induction false} RollbackInv(d: Deps, s: Sup, startErr: Error, env: Env)
    requires Underway(d, s) && s.slot.Some?
    ensures var r := Rollback(s, startErr, env);
            Inv(d, r.s) && r.s.st.desired.DesiredRunning? && (startErr != [] ==> r.err != [])
  {
    hide Retired, Exclusive, Settled, Watched, Demolish, Update;
    DemolishQuiet(d, s, true, env);
    var c := Demolish(s, s.slot.value, true, env);
    var freed := if c.local == [] && Closed(c.s.gens[s.slot.value]) then c.s.(slot := None) else c.s;
    UpdateQuiet(d, freed, State(DesiredRunning, ActualFailed, startErr + c.remote + c.local), env);
    UpdateSets(freed, State(DesiredRunning, ActualFailed, startErr + c.remote + c.local), env);
  }

  lemma UpdateSets(s: Sup, next: State, env: Env)
    ensures var u := Update(s, next, env).s;
            u.st == next && u.slot == s.slot && u.gens == s.gens && u.clock == s.clock + 1
  {
  }

  /** Monitors and the failure buffer are no part of what a settled generation is. */
  lemma {:induction false} WatchIsFree(d: Deps, g: Gen, w: Watch, clock: nat)
    ensures Settled(d, g, clock) ==> Settled(d, g.(watch := w), clock)
    ensures Core(d, g, clock) ==> Core(d, g.(watch := w), clock)
  {
    hide Steps, Has, FailStops, ResumesArePaused, ActivationOrder, StepsSucceeded, Timed, Successes, Announced;
    hide PausedOnlyIfAnnounced;
  }

  lemma {:induction false} WatchingSlot(d: Deps, s: Sup, id: nat, w: Watch)
    requires OthersRetired(d, s) && s.slot == Some(id)
    ensures var r := Watching(s, id, w);
            && OthersRetired(d, r) && (Settled(d, s.gens[id], s.clock) ==> Settled(d, r.gens[id], r.clock))
            && r.gens[id].executing == s.gens[id].executing && r.gens[id].watch == w && r.slot == s.slot && r.st == s.st
  {
    hide Settled, Core, Retired, Exclusive;
    OthersStay(d, s, Watching(s, id, w));
    WatchIsFree(d, s.gens[id], w, s.clock);
  }

  lemma {:induction false} RunningInv(d: Deps, s: Sup, id: nat)
    requires OthersRetired(d, s) && s.slot == Some(id) && Settled(d, s.gens[id], s.clock) && s.gens[id].executing
    requires s.gens[id].watch.monitors + s.gens[id].watch.inFlight == 0
    requires s.gens[id].watch.forwarded ==> s.gens[id].watch.fatal
    requires s.st.desired.DesiredRunning? && s.st.actual.ActualRunning?
    ensures Inv(d, Monitored(s, id)) && Executing(Monitored(s, id))
  {
    hide Settled, Retired, Exclusive, Watching;
    WatchingSlot(d, s, id, s.gens[id].watch.(monitors := s.gens[id].watch.monitors + 1));
  }

  lemma {:induction false} LaunchInv(d: Deps, s: Sup, id: nat, running: State, env: Env)
    requires OthersRetired(d, s) && s.slot == Some(id) && Ready(d, s.gens[id], s.clock)
    requires running.desired.DesiredRunning? && running.actual.ActualRunning?
    ensures var r := Launch(d, s, id, running, env);
            Inv(d, r.s) && (r.err == [] ==> Executing(r.s)) && r.s.st.desired.DesiredRunning?
  {
    hide Ready, Core, Settled, Retired, Exclusive, Activate, Rollback, Monitored, Watched;
    var w := Activate(d, s.gens[id], s.clock, env);
    ReadyIsBuilt(d, s.gens[id], s.clock);
    ActivationSettles(d, s.gens[id], s.clock, env);
    ActivationInOrder(d, s.gens[id], s.clock, env);
    CoreIsBuilt(d, w.g, w.clock);
    var active := s.(gens := s.gens[id := w.g], clock := w.clock);
    OthersStay(d, s, active);
    if w.err != [] {
      RollbackInv(d, active, w.err, env);
    } else {
      var u := Update(active, running, env);
      OthersLater(d, active, u.s);
      Later(d, w.g, w.clock, u.s.clock);
      if u.err != [] {
        RollbackInv(d, u.s, u.err, env);
      } else {
        RunningInv(d, u.s, id);
      }
    }
  }

  lemma {:induction false} ReadyIsBuilt(d: Deps, g: Gen, clock: nat)
    requires Ready(d, g, clock)
    ensures Steps(g.log) == [] && StepsSucceeded(g.log) && g.has == Supplied(d) && g.built && g.log != []
  {
    hide Activating, Steps, StepsSucceeded;
  }

  lemma {:induction false} CoreIsBuilt(d: Deps, g: Gen, clock: nat)
    requires Core(d, g, clock)
    ensures g.built
  {
    hide Sound, Steps, Has, FailStops;
  }

  lemma {:induction false} ClosedWasShut(d: Deps, g: Gen, h: Gen, clock: nat)
    requires Settled(d, g, clock) && Closed(g) && h.log != [] && h.log[0].at >= clock
    ensures ShutBefore(g, h)
  {
    hide Steps, Has, FailStops, ResumesArePaused, ActivationOrder, StepsSucceeded, PauseSound;
    SomeSuccess(g.log, ShutdownApi);
  }

  lemma {:induction false} SomeSuccess(log: seq<Event>, c: Call)
    requires Successes(log, c) > 0
    ensures exists i :: 0 <= i < |log| && log[i].call == c && log[i].ok
    decreases |log|
  {
    var last := log[|log| - 1];
    if !(last.call == c && last.ok) {
      SomeSuccess(log[..|log| - 1], c);
    }
  }

  /** The completed generations so far are closed, so a new one can hold an API. */
  lemma {:induction false} Adding(d: Deps, s: Sup, g: Gen, clock: nat)
    requires OthersRetired(d, s) && s.slot.None? && s.clock <= clock
    requires g.built && g.log != [] && g.log[0].at >= s.clock
    ensures OthersRetired(d, s.(gens := s.gens + [g], clock := clock, slot := Some(|s.gens|)))
  {
    hide Settled, Closed, ShutBefore;
    var id, r := |s.gens|, s.(gens := s.gens + [g], clock := clock, slot := Some(|s.gens|));
    forall j | 0 <= j < id ensures Retired(d, r.gens[j], r.clock) { Later(d, s.gens[j], s.clock, r.clock); }
    forall j | 0 <= j < id && s.gens[j].built ensures ShutBefore(r.gens[j], r.gens[id]) {
      ClosedWasShut(d, s.gens[j], g, s.clock);
    }
  }

  lemma {:induction false} Dropping(d: Deps, s: Sup, g: Gen, clock: nat)
    requires OthersRetired(d, s) && s.slot.None? && s.clock <= clock
    requires !g.executing && !g.built && g.watch == Watch(false, false, 0, 0)
    ensures OthersRetired(d, s.(gens := s.gens + [g], clock := clock))
  {
    hide Settled, Closed, ShutBefore;
    var r := s.(gens := s.gens + [g], clock := clock);
    forall j | 0 <= j < |s.gens| ensures Retired(d, r.gens[j], r.clock) { Later(d, s.gens[j], s.clock, r.clock); }
  }

  /** A construction appends one generation: ready for activation if it succeeded,
      unused and never to be used if it did not. */
  lemma {:induction false} CreateKeeps(d: Deps, s: Sup, cfg: Config, env: Env)
    requires OthersRetired(d, s) && s.slot.None? && Wired(env)
    ensures var r := Create(d, s, cfg, env);
            && r.s.st == s.st && r.s.saves == s.saves && r.s.slot.None? && s.clock <= r.s.clock
            && (r.err != [] ==> OthersRetired(d, r.s))
            && (r.err == [] ==> |r.s.gens| == |s.gens| + 1 && Ready(d, r.s.gens[|s.gens|], r.s.clock))
            && (r.err == [] ==> OthersRetired(d, r.s.(slot := Some(|s.gens|))))
  {
    hide Construct, Teardown, Ready, Retired, Exclusive, Sound;
    if d.api {
      var w := Construct(d, cfg, s.clock, env);
      ConstructionIsReady(d, cfg, s.clock, env);
      if w.err == [] {
        ReadyIsBuilt(d, w.g.(built := true), w.clock);
        Adding(d, s, w.g.(built := true), w.clock);
      } else {
        TeardownSound(d, w.g, w.clock, false, env);
        Dropping(d, s, Teardown(w.g, w.clock, false, env).g, Teardown(w.g, w.clock, false, env).clock);
      }
    }
  }

  lemma {:induction false} CreateAndLaunchInv(d: Deps, s: Sup, cfg: Config, env: Env)
    requires Quiet(d, s) && s.slot.None? && Wired(env) && s.st.desired.DesiredRunning?
    ensures var r := CreateAndLaunch(d, s, cfg, env);
            Inv(d, r.s) && r.s.st.desired.DesiredRunning? && (r.err == [] ==> Executing(r.s))
  {
    hide Create, Launch, Ready, Retired, Exclusive, Fail, Settled;
    var made := Create(d, s, cfg, env);
    CreateKeeps(d, s, cfg, env);
    if made.err != [] {
      FailInv(d, made.s, DesiredRunning, made.err, env);
    } else {
      var id := |made.s.gens| - 1;
      LaunchInv(d, made.s.(slot := Some(id)), id, State(made.s.st.desired, ActualRunning, made.s.st.lastError), env);
    }
  }

  lemma {:induction false} LoadAndLaunchInv(d: Deps, s: Sup, env: Env)
    requires Quiet(d, s) && s.slot.None? && Wired(env) && s.st.desired.DesiredRunning?
    ensures var r := LoadAndLaunch(d, s, env);
            Inv(d, r.s) && r.s.st.desired.DesiredRunning? && (r.err == [] ==> Executing(r.s))
  {
    hide Retired, Exclusive, Settled, Watched, Fail, CreateAndLaunch;
    var loaded, valid := env(s.clock), env(s.clock + 1);
    QuietLater(d, s, s.(clock := s.clock + 1));
    QuietLater(d, s, s.(clock := s.clock + 2));
    if !loaded.ok {
      FailInv(d, s.(clock := s.clock + 1), DesiredRunning, [CallFailed(LoadConfig)], env);
    } else if !valid.ok {
      FailInv(d, s.(clock := s.clock + 2), DesiredRunning, [CallFailed(ValidateConfig)], env);
    } else {
      CreateAndLaunchInv(d, s.(clock := s.clock + 2), loaded.cfg, env);
    }
  }

  /** Starting from a settled supervisor, whatever its recorded state says. */
  lemma {:induction false} StartLockedInv(d: Deps, s: Sup, restore: bool, env: Env)
    requires Quiet(d, s) && Wired(env) && (restore ==> Inv(d, s)) && (!restore ==> s.slot.None?)
    ensures var r := StartLocked(d, s, restore, env);
            && Inv(d, r.s) && (r.err == [] ==> Executing(r.s))
            && (r.s.st.desired.DesiredRunning? || (restore && r.s.st == s.st && r.s.gens == s.gens && r.err != []))
  {
    hide Retired, Exclusive, Settled, Watched, Demolish, Update, Fail, LoadAndLaunch;
    var starting := State(DesiredRunning, ActualStarting, []);
    var u := Update(s, starting, env);
    UpdateQuiet(d, s, starting, env);
    UpdateSets(s, starting, env);
    if u.err != [] {
      if restore {
        QuietLater(d, s, u.s.(st := s.st));
      } else {
        UpdateQuiet(d, u.s, State(DesiredRunning, ActualFailed, u.err), env);
        UpdateSets(u.s, State(DesiredRunning, ActualFailed, u.err), env);
      }
    } else if Executing(u.s) {
      UpdateQuiet(d, u.s, u.s.st.(actual := ActualRunning), env);
      UpdateSets(u.s, u.s.st.(actual := ActualRunning), env);
    } else if u.s.slot.Some? {
      QuietUnderway(d, u.s);
      DemolishQuiet(d, u.s, false, env);
      var c := Demolish(u.s, u.s.slot.value, false, env);
      if c.local != [] {
        FailInv(d, c.s, DesiredRunning, c.local, env);
      } else {
        LoadAndLaunchInv(d, c.s.(slot := None), env);
      }
    } else {
      LoadAndLaunchInv(d, u.s, env);
    }
  }

  lemma {:induction false} StopInv(d: Deps, s: Sup, env: Env)
    requires Quiet(d, s)
    ensures var r := Stop(s, env);
            && Inv(d, r.s) && r.s.st.desired.DesiredStopped? && !Executing(r.s)
            && (r.err == [] ==> r.s.slot.None? && r.s.st == State(DesiredStopped, ActualStopped, []))
  {
    hide Retired, Exclusive, Settled, Watched, Demolish, Update;
    var u := Update(s, State(DesiredStopped, ActualStopping, []), env);
    UpdateQuiet(d, s, State(DesiredStopped, ActualStopping, []), env);
    UpdateSets(s, State(DesiredStopped, ActualStopping, []), env);
    if s.slot.None? {
      UpdateQuiet(d, u.s, u.s.st.(actual := ActualStopped), env);
      UpdateSets(u.s, u.s.st.(actual := ActualStopped), env);
    } else {
      QuietUnderway(d, u.s);
      DemolishQuiet(d, u.s, true, env);
      var c := Demolish(u.s, s.slot.value, true, env);
      if c.local == [] {
        UpdateQuiet(d, c.s.(slot := None), State(DesiredStopped, ActualStopped, c.remote), env);
        UpdateSets(c.s.(slot := None), State(DesiredStopped, ActualStopped, c.remote), env);
      } else {
        UpdateQuiet(d, c.s, State(DesiredStopped, ActualFailed, c.remote + c.local), env);
        UpdateSets(c.s, State(DesiredStopped, ActualFailed, c.remote + c.local), env);
      }
    }
  }

  lemma {:induction false} CloseInv(d: Deps, s: Sup, env: Env)
    requires Inv(d, s)
    ensures var r := Close(s, env);
            && Inv(d, r.s) && r.s.st.desired == s.st.desired && !Executing(r.s)
            && (r.err == [] ==> r.s.slot.None? && r.s.st.actual.ActualStopped?)
  {
    hide Retired, Exclusive, Settled, Watched, Demolish, Update;
    if s.slot.None? {
      UpdateQuiet(d, s, s.st.(actual := ActualStopped), env);
      UpdateSets(s, s.st.(actual := ActualStopped), env);
    } else {
      QuietUnderway(d, s);
      DemolishQuiet(d, s, true, env);
      var c := Demolish(s, s.slot.value, true, env);
      if c.local == [] {
        UpdateQuiet(d, c.s.(slot := None), State(s.st.desired, ActualStopped, c.remote), env);
        UpdateSets(c.s.(slot := None), State(s.st.desired, ActualStopped, c.remote), env);
      } else {
        UpdateQuiet(d, c.s, State(s.st.desired, ActualFailed, c.remote + c.local), env);
        UpdateSets(c.s, State(s.st.desired, ActualFailed, c.remote + c.local), env);
      }
    }
  }

  lemma {:induction false} RestartInv(d: Deps, s: Sup, env: Env)
    requires Inv(d, s) && Wired(env)
    ensures var r := Restart(d, s, env);
            && Inv(d, r.s) && (r.err == [] ==> Executing(r.s))
            && (r.s.st.desired.DesiredRunning? || (r.s.st == s.st && r.s.gens == s.gens && r.err != []))
  {
    hide Retired, Exclusive, Settled, Watched, Demolish, Update, Fail, StartLocked;
    var stopping := State(DesiredRunning, ActualStopping, []);
    var u := Update(s, stopping, env);
    UpdateQuiet(d, s, stopping, env);
    UpdateSets(s, stopping, env);
    if u.err != [] {
      QuietLater(d, s, u.s.(st := s.st));
    } else if s.slot.Some? {
      QuietUnderway(d, u.s);
      DemolishQuiet(d, u.s, true, env);
      var c := Demolish(u.s, s.slot.value, true, env);
      if c.local != [] {
        FailInv(d, c.s, DesiredRunning, c.remote + c.local, env);
      } else {
        StartLockedInv(d, c.s.(slot := None), false, env);
      }
    } else {
      StartLockedInv(d, u.s, false, env);
    }
  }

  lemma {:induction false} ReplaceInv(d: Deps, s: Sup, cfg: Config, env: Env)
    requires Quiet(d, s) && s.slot.None? && Wired(env) && s.st.desired.DesiredRunning?
    ensures var r := Replace(d, s, cfg, env);
            Inv(d, r.s) && r.s.st.desired.DesiredRunning? && (r.err == [] ==> Executing(r.s))
  {
    hide Retired, Exclusive, Settled, Watched, Update, Fail, CreateAndLaunch;
    var u := Update(s, State(s.st.desired, ActualStopped, []), env);
    UpdateQuiet(d, s, State(s.st.desired, ActualStopped, []), env);
    UpdateSets(s, State(s.st.desired, ActualStopped, []), env);
    if u.err != [] {
      FailInv(d, u.s, DesiredRunning, u.err, env);
    } else {
      CreateAndLaunchInv(d, u.s, cfg, env);
    }
  }

  lemma {:induction false} ReconcileInv(d: Deps, s: Sup, cfg: Config, env: Env)
    requires Inv(d, s) && Wired(env)
    ensures var r := Reconcile(d, s, cfg, env);
            && Inv(d, r.s) && r.s.st.desired == s.st.desired
            && (r.err == [] ==> (Executing(r.s) <==> s.st.desired.DesiredRunning?))
  {
    hide Retired, Exclusive, Settled, Watched, Demolish, Update, Fail, Replace;
    if s.slot.Some? {
      QuietUnderway(d, s);
      DemolishQuiet(d, s, s.st.desired.DesiredRunning?, env);
      var c := Demolish(s, s.slot.value, s.st.desired.DesiredRunning?, env);
      if c.local != [] {
        FailInv(d, c.s, s.st.desired, c.remote + c.local, env);
      } else if s.st.desired.DesiredStopped? {
        UpdateQuiet(d, c.s.(slot := None), State(s.st.desired, ActualStopped, []), env);
        UpdateSets(c.s.(slot := None), State(s.st.desired, ActualStopped, []), env);
      } else if c.remote != [] {
        FailInv(d, c.s.(slot := None), DesiredRunning, c.remote, env);
      } else {
        ReplaceInv(d, c.s.(slot := None), cfg, env);
      }
    } else if s.st.desired.DesiredStopped? {
      UpdateQuiet(d, s, State(s.st.desired, ActualStopped, []), env);
      UpdateSets(s, State(s.st.desired, ActualStopped, []), env);
    } else {
      ReplaceInv(d, s, cfg, env);
    }
  }

  lemma {:induction false} RequestStartInv(d: Deps, s: Sup, env: Env)
    requires Inv(d, s)
    ensures Inv(d, RequestStart(s, env).s) && RequestStart(s, env).s.st.desired.DesiredRunning?
  {
    hide Retired, Exclusive, Settled, Watched, Update;
    var next := State(DesiredRunning, if s.st.actual.ActualFailed? then ActualStopped else s.st.actual, []);
    UpdateQuiet(d, s, next, env);
    UpdateSets(s, next, env);
  }

  // ---------------------------------------------------------------- light applies

  predicate LightCall(c: Call) { c.ValidateDevices? || c.VerifyCandidate? || c.RegisterCandidate? }

  /** A further call on an executing generation, registration included. */
  lemma {:induction false} AskingKeeps(d: Deps, g: Gen, c: Call, a: Answer, clock: nat)
    requires Settled(d, g, clock) && g.executing && LightCall(c)
    ensures Settled(d, Asked(g, c, a, clock), clock + 1)
  {
    hide Steps, Successes, Has, ActivationOrder, Announced, PausedOnlyIfAnnounced, InUse, StepsSucceeded, FailStops;
    var e := Event(c, a.ok, a.effect, clock);
    Appending(g.log, e, ShutdownApi);
    Appending(g.log, e, CloseEdge);
    Appending(g.log, e, ShutdownObservability);
    Announcing(g.log, e);
    Having(g.log, e, Resume);
    OneMore(g.log, e);
    StillInUse(g, Asked(g, c, a, clock));
  }

  lemma AskedFields(d: Deps, g: Gen, c: Call, a: Answer, clock: nat)
    ensures var h := Asked(g, c, a, clock);
            && h.executing == g.executing && h.active == g.active && h.publicURL == g.publicURL && h.built == g.built
            && h.watch == g.watch && h.closed == g.closed && h.has == g.has
            && h.log == g.log + [Event(c, a.ok, a.effect, clock)]
            && (Watched(g) ==> Watched(h))
  {
  }

  lemma StillInUse(g: Gen, h: Gen)
    requires h.has == g.has && h.closed == g.closed
    ensures InUse(h) == InUse(g) && Phantom(h) == Phantom(g)
  {
  }

  lemma {:induction false} AskIfInv(d: Deps, s: Sup, wanted: bool, c: Call, env: Env)
    requires Inv(d, s) && Executing(s) && LightCall(c)
    ensures var id := s.slot.value;
            var r := AskIf(wanted, s, id, c, env);
            && Inv(d, r.s) && Executing(r.s) && r.s.slot == s.slot && r.s.st == s.st && r.s.saves == s.saves
            && r.s.gens[id].active == s.gens[id].active && r.s.gens[id].publicURL == s.gens[id].publicURL
            && (wanted && r.err == [] ==>
                 r.s.gens[id].log == s.gens[id].log + [Event(c, true, env(s.clock).effect, s.clock)])
            && (!wanted ==> r.s == s)
  {
    hide Settled, Retired, Exclusive, Asked, Watched;
    if wanted {
      var id, a := s.slot.value, env(s.clock);
      SettledIsBuilt(d, s.gens[id], s.clock);
      AskingKeeps(d, s.gens[id], c, a, s.clock);
      AskedFields(d, s.gens[id], c, a, s.clock);
      OthersStay(d, s, AskIf(wanted, s, id, c, env).s);
    }
  }

  lemma {:induction false} AdoptInv(d: Deps, s: Sup, cfg: Config, url: string)
    requires Inv(d, s) && Executing(s)
    ensures Inv(d, Adopt(s, s.slot.value, cfg, url)) && Executing(Adopt(s, s.slot.value, cfg, url))
  {
    hide Settled, Retired, Exclusive;
    var id := s.slot.value;
    SettledIsBuilt(d, s.gens[id], s.clock);
    AdoptingKeeps(d, s.gens[id], cfg, url, s.clock);
    OthersStay(d, s, Adopt(s, id, cfg, url));
  }

  lemma {:induction false} AdoptingKeeps(d: Deps, g: Gen, cfg: Config, url: string, clock: nat)
    requires Settled(d, g, clock)
    ensures Settled(d, g.(active := cfg, publicURL := url), clock)
  {
    hide Steps, Has, FailStops, ResumesArePaused, ActivationOrder, StepsSucceeded, Timed, Successes, Announced;
    hide PausedOnlyIfAnnounced;
  }

  /** The state a light apply may leave: only the generation in use may have changed,
      and it still executes. */
  ghost predicate Light(d: Deps, s: Sup, r: Sup) {
    && Inv(d, s) && Executing(s) && Inv(d, r) && Executing(r) && r.slot == s.slot && r.st == s.st && r.saves == s.saves
    && s.gens[s.slot.value].log <= r.gens[s.slot.value].log
  }

  predicate SameActive(s: Sup, r: Sup)
    requires SlotValid(s) && SlotValid(r) && s.slot.Some? && r.slot == s.slot
  {
    r.gens[s.slot.value].active == s.gens[s.slot.value].active
    && r.gens[s.slot.value].publicURL == s.gens[s.slot.value].publicURL
  }

  lemma {:induction false} AskIfLight(d: Deps, s: Sup, wanted: bool, c: Call, env: Env)
    requires Inv(d, s) && Executing(s) && LightCall(c)
    ensures var r := AskIf(wanted, s, s.slot.value, c, env);
            && Light(d, s, r.s) && SameActive(s, r.s)
            && (wanted && r.err == [] ==> Extended(s, r.s, Event(c, true, env(s.clock).effect, s.clock)))
  {
    AskIfInv(d, s, wanted, c, env);
  }

  ghost predicate Extended(s: Sup, r: Sup, e: Event)
    requires SlotValid(s) && SlotValid(r) && s.slot.Some? && r.slot == s.slot
  {
    r.gens[s.slot.value].log == s.gens[s.slot.value].log + [e]
  }

  lemma {:induction false} LightOn(d: Deps, s: Sup, t: Sup, r: Sup)
    requires Light(d, s, t) && Light(d, t, r)
    ensures Light(d, s, r)
  {
    hide Inv;
  }

  lemma {:induction false} AdoptLight(d: Deps, s: Sup, cfg: Config, url: string)
    requires Inv(d, s) && Executing(s)
    ensures var r := Adopt(s, s.slot.value, cfg, url);
            && Light(d, s, r) && r.gens[s.slot.value].log == s.gens[s.slot.value].log
            && r.gens[s.slot.value].active == cfg && r.gens[s.slot.value].publicURL == url
  {
    AdoptInv(d, s, cfg, url);
  }

  /** A light apply never touches the recorded state.  The configuration and the URL
      become active if and only if it returns nil, after the registration (when
      there is one) succeeded; otherwise the previous ones stay. */
  lemma {:induction false} LightApplyKeeps(
      d: Deps, s: Sup, checked: bool, check: Call, cfg: Config, url: string, env: Env)
    requires Inv(d, s) && Executing(s) && LightCall(check)
    ensures var r := LightApply(d, s, checked, check, cfg, url, env);
            && Light(d, s, r.s)
            && (r.err != [] ==> SameActive(s, r.s))
            && (r.err == [] ==> r.s.gens[s.slot.value].active == cfg && r.s.gens[s.slot.value].publicURL == url)
            && (r.err == [] && d.register ==> Announced(r.s.gens[s.slot.value].log))
  {
    hide Quiet, AskIf, Adopt, Announced;
    var id := s.slot.value;
    var u := AskIf(checked, s, id, check, env);
    AskIfLight(d, s, checked, check, env);
    if u.err == [] {
      var v := AskIf(d.register, u.s, id, RegisterCandidate, env);
      AskIfLight(d, u.s, d.register, RegisterCandidate, env);
      LightOn(d, s, u.s, v.s);
      if v.err == [] {
        AdoptLight(d, v.s, cfg, url);
        LightOn(d, s, v.s, Adopt(v.s, id, cfg, url));
        Announcing(u.s.gens[id].log, Event(RegisterCandidate, true, env(u.s.clock).effect, u.s.clock));
      }
    }
  }

  lemma {:induction false} ApplyInventoryInv(d: Deps, s: Sup, cfg: Config, env: Env)
    requires Inv(d, s)
    ensures var r := ApplyInventory(d, s, cfg, env);
            && Inv(d, r.s) && r.s.st == s.st && r.s.saves == s.saves && r.s.slot == s.slot
            && Executing(r.s) == Executing(s)
            && (r.err == [] ==> Executing(s) && r.s.gens[s.slot.value].active == cfg)
            && (Executing(s) ==> r.s.gens[s.slot.value].publicURL == s.gens[s.slot.value].publicURL)
  {
    hide LightApply, ChangedPhysical, Quiet, Announced;
    if Executing(s) {
      var g := s.gens[s.slot.value];
      LightApplyKeeps(d, s, d.devices && ChangedPhysical(g.active, cfg) != [], ValidateDevices, cfg, g.publicURL, env);
    }
  }

  lemma {:induction false} ApplyEndpointInv(d: Deps, s: Sup, cfg: Config, env: Env)
    requires Inv(d, s)
    ensures var r := ApplyEndpoint(d, s, cfg, env);
            && Inv(d, r.s) && r.s.st == s.st && r.s.saves == s.saves && r.s.slot == s.slot
            && Executing(r.s) == Executing(s)
            && (r.err == [] ==> Executing(s) && r.s.gens[s.slot.value].active == cfg)
            && (r.err == [] && cfg.manual ==> r.s.gens[s.slot.value].publicURL == cfg.publicURL)
            && (Executing(s) && (r.err != [] || !cfg.manual) ==>
                 r.s.gens[s.slot.value].publicURL == s.gens[s.slot.value].publicURL)
  {
    hide LightApply, Quiet, Announced;
    if Executing(s) {
      var g := s.gens[s.slot.value];
      LightApplyKeeps(d, s, d.verify, VerifyCandidate, cfg, if cfg.manual then cfg.publicURL else g.publicURL, env);
    }
  }

  // ---------------------------------------------------------------- component failures

  /** A change of monitors or buffer anywhere keeps what does not depend on them. */
  lemma {:induction false} WatchingQuiet(d: Deps, s: Sup, id: nat, w: Watch)
    requires Quiet(d, s) && id < |s.gens| && s.gens[id].built
    requires s.slot == Some(id) ==> Watched(s.gens[id].(watch := w))
    ensures Quiet(d, Watching(s, id, w)) && Executing(Watching(s, id, w)) == Executing(s)
  {
    hide Settled, Core, ShutBefore, Closed;
    var r := Watching(s, id, w);
    WatchIsFree(d, s.gens[id], w, s.clock);
    ClosedStays(s.gens[id], w);
    forall j, k | 0 <= j < k < |r.gens| && r.gens[j].built && r.gens[k].built ensures ShutBefore(r.gens[j], r.gens[k]) {
      ShutStays(s.gens[j], s.gens[k], r.gens[j], r.gens[k]);
    }
  }

  lemma ClosedStays(g: Gen, w: Watch)
    ensures Closed(g.(watch := w)) == Closed(g)
  {
  }

  lemma {:induction false} ComponentFailsInv(d: Deps, s: Sup, id: nat)
    requires Inv(d, s)
    ensures Inv(d, ComponentFails(s, id)) && ComponentFails(s, id).st == s.st
  {
    hide Watching, Retired, Exclusive, Settled;
    if id < |s.gens| && s.gens[id].built {
      WatchingQuiet(d, s, id, s.gens[id].watch.(fatal := true, forwarded := true));
      WatchingKeeps(s, id, s.gens[id].watch.(fatal := true, forwarded := true));
    }
  }

  lemma WatchingKeeps(s: Sup, id: nat, w: Watch)
    requires id < |s.gens|
    ensures var r := Watching(s, id, w);
            && r.st == s.st && r.slot == s.slot && |r.gens| == |s.gens| && r.saves == s.saves && r.clock == s.clock
            && r.gens[id] == s.gens[id].(watch := w)
            && (forall j :: 0 <= j < |s.gens| && j != id ==> r.gens[j] == s.gens[j])
  {
  }

  /** Generations that were never completed have no monitor. */
  lemma {:induction false} UnbuiltUnwatched(d: Deps, s: Sup, id: nat)
    requires Quiet(d, s) && id < |s.gens| && !s.gens[id].built
    ensures s.gens[id].watch == Watch(false, false, 0, 0)
  {
    hide Settled, Exclusive;
  }

  lemma {:induction false} MonitorReceivesInv(d: Deps, s: Sup, id: nat)
    requires Inv(d, s)
    ensures Inv(d, MonitorReceives(s, id)) && MonitorReceives(s, id).st == s.st
  {
    hide Watching, Retired, Exclusive, Settled;
    if id < |s.gens| && s.gens[id].watch.fatal && s.gens[id].watch.monitors > 0 {
      var w := s.gens[id].watch;
      if !s.gens[id].built { UnbuiltUnwatched(d, s, id); }
      WatchingQuiet(d, s, id, w.(fatal := false, monitors := w.monitors - 1, inFlight := w.inFlight + 1));
      WatchingKeeps(s, id, w.(fatal := false, monitors := w.monitors - 1, inFlight := w.inFlight + 1));
    }
  }

  /** The failure of a generation that is not in use, or no longer executing,
      changes nothing but its own pending count. */
  lemma StaleFailureIsIgnored(s: Sup, id: nat, env: Env)
    requires SlotValid(s) && (s.slot != Some(id) || !Executing(s))
    ensures var r := MonitorHandles(s, id, env);
            && r.st == s.st && r.slot == s.slot && r.saves == s.saves && r.clock == s.clock && |r.gens| == |s.gens|
            && (forall j :: 0 <= j < |s.gens| && j != id ==> r.gens[j] == s.gens[j])
            && (id < |s.gens| ==> r.gens[id].(watch := s.gens[id].watch) == s.gens[id])
  {
  }

  /** The failure of the generation in use takes it down: nothing executes after it
      and the supervisor reports failed while it still wants to run. */
  lemma {:induction false} MonitorHandlesInv(d: Deps, s: Sup, id: nat, env: Env)
    requires Inv(d, s)
    ensures var r := MonitorHandles(s, id, env);
            && Inv(d, r) && r.st.desired == s.st.desired
            && (s.slot == Some(id) && Executing(s) && s.gens[id].watch.inFlight > 0 ==>
                 !Executing(r) && r.st.actual.ActualFailed?)
  {
    hide Watching, Retired, Exclusive, Settled, Demolish, Update;
    if id < |s.gens| && s.gens[id].watch.inFlight > 0 {
      var w := s.gens[id].watch;
      var done := w.(inFlight := w.inFlight - 1);
      if !s.gens[id].built { UnbuiltUnwatched(d, s, id); }
      WatchingKeeps(s, id, done);
      var r := Watching(s, id, done);
      if s.slot != Some(id) || !s.gens[id].executing {
        WatchingQuiet(d, s, id, done);
      } else {
        FailureUnderway(d, s, id, done);
        DemolishQuiet(d, r, true, env);
        var c := Demolish(r, id, true, env);
        var freed := if c.local == [] && Closed(c.s.gens[id]) then c.s.(slot := None) else c.s;
        UpdateQuiet(d, freed, State(DesiredRunning, ActualFailed, [ComponentFailed] + c.remote + c.local), env);
        UpdateSets(freed, State(DesiredRunning, ActualFailed, [ComponentFailed] + c.remote + c.local), env);
      }
    }
  }

  lemma {:induction false} FailureUnderway(d: Deps, s: Sup, id: nat, w: Watch)
    requires Quiet(d, s) && s.slot == Some(id)
    ensures Underway(d, Watching(s, id, w))
  {
    hide Settled, Retired, Exclusive, Core, Watching;
    QuietUnderway(d, s);
    WatchingSlot(d, s, id, w);
    WatchIsFree(d, s.gens[id], w, s.clock);
    WatchingKeeps(s, id, w);
  }

  // ---------------------------------------------------------------- every run

  lemma {:induction false} StepInv(d: Deps, s: Sup, op: Op, env: Env)
    requires Inv(d, s) && Wired(env)
    ensures Inv(d, Step(d, s, op, env))
  {
    hide Quiet, Start, StartLocked, Stop, Restart, Reconcile, Close, RequestStart, ApplyInventory, ApplyEndpoint;
    hide ComponentFails, MonitorReceives, MonitorHandles;
    match op
    case OpStart => StartIs(d, s, env); StartLockedInv(d, s, true, env);
    case OpStop => StopInv(d, s, env);
    case OpRestart => RestartInv(d, s, env);
    case OpReconcile(cfg) => ReconcileInv(d, s, cfg, env);
    case OpClose => CloseInv(d, s, env);
    case OpRequestStart => RequestStartInv(d, s, env);
    case OpApplyInventory(cfg) => ApplyInventoryInv(d, s, cfg, env);
    case OpApplyEndpoint(cfg) => ApplyEndpointInv(d, s, cfg, env);
    case OpComponentFails(id) => ComponentFailsInv(d, s, id);
    case OpMonitorReceives(id) => MonitorReceivesInv(d, s, id);
    case OpMonitorHandles(id) => MonitorHandlesInv(d, s, id, env);
  }

  lemma StartIs(d: Deps, s: Sup, env: Env)
    requires SlotValid(s)
    ensures Start(d, s, env) == StartLocked(d, s, true, env)
  {
  }

  /** A run: each operation is one transition, or something that happens between two. */
  function Run(d: Deps, s: Sup, ops: seq<Op>, env: Env): Sup {
    if ops == [] then s
    else
      var before := Run(d, s, ops[..|ops| - 1], env);
      if SlotValid(before) then Step(d, before, ops[|ops| - 1], env) else before
  }

  lemma {:induction false} RunInv(d: Deps, s: Sup, ops: seq<Op>, env: Env)
    requires Wired(env) && Inv(d, s)
    ensures Inv(d, Run(d, s, ops, env))
    decreases |ops|
  {
    hide Step;
    if ops != [] {
      RunInv(d, s, ops[..|ops| - 1], env);
      StepInv(d, Run(d, s, ops[..|ops| - 1], env), ops[|ops| - 1], env);
    }
  }

  lemma InitialInv(d: Deps, loaded: State)
    ensures Inv(d, Initial(loaded))
  {
  }

  /** Over every run from a fresh supervisor, with every call failing or not as the
      environment likes: whenever no transition is in progress, `running` is recorded
      exactly while the slot holds an executing generation, and that only while
      running is desired. */
  lemma {:induction false} RunningMeansExecuting(d: Deps, loaded: State, ops: seq<Op>, env: Env)
    requires Wired(env)
    ensures var s := Run(d, Initial(loaded), ops, env);
            && SlotValid(s)
            && (s.st.actual.ActualRunning? <==> Executing(s))
            && (Executing(s) ==> s.st.desired.DesiredRunning?)
            && (forall id :: 0 <= id < |s.gens| && s.gens[id].executing ==> s.slot == Some(id))
  {
    hide Step, Run, Settled, Exclusive;
    InitialInv(d, loaded);
    RunInv(d, Initial(loaded), ops, env);
  }

  /** Every generation of every run was activated in the documented order: its steps
      are a prefix of it, each but the last succeeded, and an executing generation
      went through all of them. */
  lemma {:induction false} ActivationsFollowOrder(d: Deps, loaded: State, ops: seq<Op>, env: Env, id: nat)
    requires Wired(env) && id < |Run(d, Initial(loaded), ops, env).gens|
    requires Run(d, Initial(loaded), ops, env).gens[id].built
    ensures var g := Run(d, Initial(loaded), ops, env).gens[id];
            && Steps(g.log) <= ActivationOrder(d) && FailStops(g.log)
            && (g.executing ==> Steps(g.log) == ActivationOrder(d) && StepsSucceeded(g.log))
  {
    hide Step, Run, Exclusive, Watched, Sound, Steps, Has, ActivationOrder, FailStops, StepsSucceeded, InUse;
    hide ResumesArePaused;
    InitialInv(d, loaded);
    RunInv(d, Initial(loaded), ops, env);
  }

  /** Every resume is followed by an attempt to pause before the transition that ends
      the generation returns, and no generation is paused before it was announced,
      if there is anything to announce it to. */
  lemma {:induction false} ResumedIsPaused(d: Deps, loaded: State, ops: seq<Op>, env: Env, id: nat)
    requires Wired(env) && id < |Run(d, Initial(loaded), ops, env).gens|
    requires Run(d, Initial(loaded), ops, env).gens[id].built
    ensures var g := Run(d, Initial(loaded), ops, env).gens[id];
            && (!g.executing ==> ResumesArePaused(g.log)) && (d.register ==> PausedOnlyIfAnnounced(g.log))
  {
    hide Step, Run, Exclusive, Watched, Steps, Has, ActivationOrder, FailStops, StepsSucceeded, InUse, ResumesArePaused;
    hide PausedOnlyIfAnnounced, Announced, Timed, ReleasedOnce;
    InitialInv(d, loaded);
    RunInv(d, Initial(loaded), ops, env);
  }

  /** A completed generation is in the slot or holds nothing, each of its resources
      was successfully released at most once, and its API was gone before anything
      was done for a later one. */
  lemma {:induction false} OneOwner(d: Deps, loaded: State, ops: seq<Op>, env: Env, id: nat)
    requires Wired(env) && id < |Run(d, Initial(loaded), ops, env).gens|
    requires Run(d, Initial(loaded), ops, env).gens[id].built
    ensures var s := Run(d, Initial(loaded), ops, env);
            var g := s.gens[id];
            && (s.slot == Some(id) || Closed(g))
            && Successes(g.log, ShutdownApi) <= 1 && Successes(g.log, CloseEdge) <= 1
            && Successes(g.log, ShutdownObservability) <= 1
            && (forall k :: id < k < |s.gens| && s.gens[k].built ==> ShutBefore(g, s.gens[k]))
  {
    hide Step, Run, Watched, Steps, Has, ActivationOrder, FailStops, StepsSucceeded, InUse, ResumesArePaused;
    hide PauseSound, Timed, Successes, Closed, ShutBefore;
    InitialInv(d, loaded);
    RunInv(d, Initial(loaded), ops, env);
  }

  /** A failure forwarded to an executing generation is still in its buffer or in the
      hands of its one monitor. */
  lemma {:induction false} NoFailureIsLost(d: Deps, loaded: State, ops: seq<Op>, env: Env)
    requires Wired(env)
    ensures var s := Run(d, Initial(loaded), ops, env);
            SlotValid(s) && (Executing(s) ==> Watched(s.gens[s.slot.value]))
  {
    hide Step, Run, Watched, Exclusive, Settled, Retired;
    InitialInv(d, loaded);
    RunInv(d, Initial(loaded), ops, env);
  }

  // ---------------------------------------------------------------- who decides what is desired

  predicate Starts(op: Op) { op.OpStart? || op.OpRestart? || op.OpRequestStart? }

  /** Only a stop makes it stopped, and only a start, a restart or a requested start
      makes it running, although rollbacks and the failure handler write `running`
      unconditionally. */
  lemma {:induction false} DesiredChanges(d: Deps, s: Sup, op: Op, env: Env)
    requires Inv(d, s) && Wired(env)
    ensures var r := Step(d, s, op, env);
            && (r.st.desired.DesiredStopped? ==> s.st.desired.DesiredStopped? || op.OpStop?)
            && (r.st.desired.DesiredRunning? ==> s.st.desired.DesiredRunning? || Starts(op))
  {
    hide Quiet, Start, StartLocked, Stop, Restart, Reconcile, Close, RequestStart, ApplyInventory, ApplyEndpoint;
    hide ComponentFails, MonitorReceives, MonitorHandles;
    match op
    case OpStart => StartIs(d, s, env); StartLockedInv(d, s, true, env);
    case OpStop => StopInv(d, s, env);
    case OpRestart => RestartInv(d, s, env);
    case OpReconcile(cfg) => ReconcileInv(d, s, cfg, env);
    case OpClose => CloseInv(d, s, env);
    case OpRequestStart => RequestStartInv(d, s, env);
    case OpApplyInventory(cfg) => ApplyInventoryInv(d, s, cfg, env);
    case OpApplyEndpoint(cfg) => ApplyEndpointInv(d, s, cfg, env);
    case OpComponentFails(id) => ComponentFailsInv(d, s, id);
    case OpMonitorReceives(id) => MonitorReceivesInv(d, s, id);
    case OpMonitorHandles(id) => MonitorHandlesInv(d, s, id, env);
  }

  ghost function DesiredAfter(d: Deps, loaded: State, ops: seq<Op>, env: Env): Desired {
    Run(d, Initial(loaded), ops, env).st.desired
  }

  /** Nothing from the n-th operation on changes what is desired. */
  ghost predicate DesiredSince(d: Deps, loaded: State, ops: seq<Op>, env: Env, n: nat) {
    n <= |ops| && forall k :: n <= k <= |ops| ==>
        DesiredAfter(d, loaded, ops[..k], env) == DesiredAfter(d, loaded, ops, env)
  }

  /** Over every run: what is desired at the end was loaded and never changed, or was set by
      the last operation that changed it; to stopped that is a stop, to running a start,
      a restart or a requested start. */
  lemma {:induction false} DesiredIsDecided(d: Deps, loaded: State, ops: seq<Op>, env: Env) returns (n: nat)
    requires Wired(env)
    ensures DesiredSince(d, loaded, ops, env, n)
    ensures n == 0 ==> DesiredAfter(d, loaded, ops, env) == loaded.desired
    ensures n > 0 ==> DesiredAfter(d, loaded, ops[..n - 1], env) != DesiredAfter(d, loaded, ops, env)
    ensures n > 0 ==>
        if DesiredAfter(d, loaded, ops, env).DesiredStopped? then ops[n - 1].OpStop? else Starts(ops[n - 1])
    decreases |ops|
  {
    hide Step, Quiet, Inv;
    assert ops[..|ops|] == ops;
    if ops == [] { return 0; }
    var init := ops[..|ops| - 1];
    InitialInv(d, loaded);
    RunInv(d, Initial(loaded), init, env);
    DesiredChanges(d, Run(d, Initial(loaded), init, env), ops[|ops| - 1], env);
    assert Run(d, Initial(loaded), ops, env) == Step(d, Run(d, Initial(loaded), init, env), ops[|ops| - 1], env) by {
      InvSlot(d, Run(d, Initial(loaded), init, env));
    }
    if DesiredAfter(d, loaded, init, env) != DesiredAfter(d, loaded, ops, env) { return |ops|; }
    n := DesiredIsDecided(d, loaded, init, env);
    forall k | n <= k <= |ops| ensures DesiredAfter(d, loaded, ops[..k], env) == DesiredAfter(d, loaded, ops, env) {
      if k < |ops| { assert init[..k] == ops[..k]; }
    }
    if n > 0 { assert init[..n - 1] == ops[..n - 1]; }
  }

  lemma InvSlot(d: Deps, s: Sup)
    requires Inv(d, s)
    ensures SlotValid(s)
  {
  }

  /** Everything written in between says that stopped is desired. */
  ghost predicate WritesStopped(s: Sup, r: Sup) {
    s.saves <= r.saves && forall i :: |s.saves| <= i < |r.saves| ==> r.saves[i].state.desired.DesiredStopped?
  }

  lemma {:induction false} DemolishWritesNothing(s: Sup, id: nat, pause: bool, env: Env)
    requires id < |s.gens|
    ensures var c := Demolish(s, id, pause, env).s;
            c.saves == s.saves && c.st == s.st && c.slot == s.slot && |c.gens| == |s.gens|
  {
    hide Teardown;
  }

  lemma WritesOn(s: Sup, t: Sup, r: Sup)
    requires WritesStopped(s, t) && WritesStopped(t, r)
    ensures WritesStopped(s, r)
  {
  }

  /** The last thing a stop writes is the state it leaves behind. */
  lemma {:induction false} StopWrites(s: Sup, env: Env)
    requires SlotValid(s)
    ensures var r := Stop(s, env);
            && WritesStopped(s, r.s) && r.s.saves != [] && r.s.saves[|r.s.saves| - 1].state == r.s.st
            && (r.err == [] ==> r.s.saves[|r.s.saves| - 1].replaced)
  {
    hide Demolish, Closed;
    var u := Update(s, State(DesiredStopped, ActualStopping, []), env);
    if s.slot.Some? { DemolishWritesNothing(u.s, s.slot.value, true, env); }
  }

  /** While stopped is desired, nothing but a start writes anything else. */
  lemma {:induction false} StepWritesStopped(d: Deps, s: Sup, op: Op, env: Env)
    requires Inv(d, s) && s.st.desired.DesiredStopped? && !Starts(op)
    ensures WritesStopped(s, Step(d, s, op, env))
  {
    hide Quiet, Demolish, Closed, Watching, LightApply, Replace;
    if op.OpStop? {
      StopWrites(s, env);
    } else if op.OpMonitorHandles? {
      StaleFailureIsIgnored(s, op.id, env);
    } else if op.OpComponentFails? && op.id < |s.gens| {
      WatchingKeeps(s, op.id, s.gens[op.id].watch.(fatal := true, forwarded := true));
    } else if op.OpMonitorReceives? && op.id < |s.gens| && s.gens[op.id].watch.monitors > 0 {
      var w := s.gens[op.id].watch;
      WatchingKeeps(s, op.id, w.(fatal := false, monitors := w.monitors - 1, inFlight := w.inFlight + 1));
    } else if s.slot.Some? {
      DemolishWritesNothing(s, s.slot.value, op.OpClose?, env);
    }
  }

  lemma {:induction false} RunWritesStopped(d: Deps, s: Sup, ops: seq<Op>, env: Env)
    requires Inv(d, s) && Wired(env) && s.st.desired.DesiredStopped? && forall i :: 0 <= i < |ops| ==> !Starts(ops[i])
    ensures var r := Run(d, s, ops, env); Inv(d, r) && r.st.desired.DesiredStopped? && WritesStopped(s, r)
    decreases |ops|
  {
    hide Step, Quiet;
    if ops != [] {
      var n := |ops| - 1;
      RunWritesStopped(d, s, ops[..n], env);
      var before := Run(d, s, ops[..n], env);
      StepInv(d, before, ops[n], env);
      DesiredChanges(d, before, ops[n], env);
      StepWritesStopped(d, before, ops[n], env);
      WritesOn(s, before, Step(d, before, ops[n], env));
    }
  }
}
