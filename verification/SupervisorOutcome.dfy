/** What each transition of the supervisor leaves behind and reports: which configuration the new
    generation runs, at which URL, what is recorded, and why a transition failed. */
module SupervisorOutcome {
  import opened Wrappers
  import opened Generation
  import opened GenerationProofs
  import opened GenerationOutcome
  import opened SupervisorSpec
  import opened SupervisorProofs

  /** The error of the save with this number. */
  function Saving(at: nat, env: Env): Error { if env(at).ok then [] else [CallFailed(SaveState)] }

  function Written(state: State, at: nat, env: Env): Save { Save(state, env(at).ok || env(at).effect) }

  // ---------------------------------------------------------------- a new generation

  /** When the new generation is activated. */
  function ActivatedAt(d: Deps, at: nat, env: Env): nat { at + |Events(ConstructionCalls(d), at, env)| }

  function PublishedAt(d: Deps, at: nat, env: Env): nat {
    ActivatedAt(d, at, env) + |Events(ActivationCalls(d, Supplied(d)), ActivatedAt(d, at, env), env)|
  }

  /** What stopped the making of a generation; nothing if it was made. */
  function Obstacle(d: Deps, at: nat, env: Env): Error {
    if !d.api then [NoApiConstructor]
    else
      var construction := FirstFailure(ConstructionCalls(d), at, env);
      if construction != [] then construction
      else
        var activation := FirstFailure(ActivationCalls(d, Supplied(d)), ActivatedAt(d, at, env), env);
        if activation != [] then activation else Saving(PublishedAt(d, at, env), env)
  }

  /** The generation that was asked for executes: this configuration, at the URL with which its edge started,
      after all the calls of its construction and its activation. */
  ghost predicate RunsAs(d: Deps, g: Gen, cfg: Config, at: nat, env: Env) {
    && g.executing && g.built && g.active == cfg && g.has == Supplied(d)
    && g.publicURL == (if d.edge then env(ActivatedAt(d, at, env) + 3).text else "")
    && g.log == Events(ConstructionCalls(d), at, env)
                + Events(ActivationCalls(d, Supplied(d)), ActivatedAt(d, at, env), env)
  }

  /** One more generation, in the slot. */
  ghost predicate MadeOne(d: Deps, s: Sup, r: Sup, cfg: Config, at: nat, env: Env) {
    var n := |s.gens|;
    && r.slot == Some(n) && |r.gens| == n + 1 && r.gens[..n] == s.gens && RunsAs(d, r.gens[n], cfg, at, env)
  }

  /** The slot refers only to a generation that still holds something. */
  ghost predicate HoldsOn(s: Sup) { s.slot.Some? ==> s.slot.value < |s.gens| && !Closed(s.gens[s.slot.value]) }

  /** The transition failed: this is recorded, with its first cause, and reported; a generation that could be released
      is no longer in the slot. */
  ghost predicate FailedFor(r: Outcome, first: Error) {
    && HoldsOn(r.s)
    && r.s.st.desired.DesiredRunning? && r.s.st.actual.ActualFailed? && first <= r.s.st.lastError
    && (r.err == r.s.st.lastError || r.err == r.s.st.lastError + [CallFailed(SaveState)])
    && r.s.saves != [] && r.s.saves[|r.s.saves| - 1].state == r.s.st
  }

  lemma {:induction false} FailRecords(s: Sup, err: Error, env: Env)
    requires HoldsOn(s)
    ensures FailedFor(Fail(s, DesiredRunning, err, env), err)
  {
    hide Closed;
  }

  lemma {:induction false} RollbackRecords(d: Deps, s: Sup, startErr: Error, env: Env)
    requires Underway(d, s) && s.slot.Some?
    ensures FailedFor(Rollback(s, startErr, env), startErr)
    ensures startErr != [] ==> Rollback(s, startErr, env).err != []
  {
    hide Demolish, Closed, Quiet, Underway;
    assert SlotValid(s) by { UnderwaySlot(d, s); }
    DemolishQuiet(d, s, true, env);
    var c := Demolish(s, s.slot.value, true, env);
    assert SlotValid(c.s) by { QuietSlot(d, c.s); }
  }

  lemma UnderwaySlot(d: Deps, s: Sup)
    requires Underway(d, s)
    ensures SlotValid(s)
  {
  }

  lemma {:induction false} LaunchExactly(d: Deps, s: Sup, id: nat, running: State, env: Env)
    requires OthersRetired(d, s) && s.slot == Some(id) && id < |s.gens| && Ready(d, s.gens[id], s.clock)
    ensures var r := Launch(d, s, id, running, env); var calls := ActivationCalls(d, s.gens[id].has);
            var failure := FirstFailure(calls, s.clock, env);
            var why := if failure != [] then failure else Saving(s.clock + |Events(calls, s.clock, env)|, env);
            && (why != [] ==> FailedFor(r, why) && r.err != [])
            && (why == [] ==>
                  && r.err == [] && r.s.slot == s.slot && r.s.st == running
                  && r.s.saves == s.saves + [Save(running, true)] && |r.s.gens| == |s.gens|
                  && (forall j :: 0 <= j < |s.gens| && j != id ==> r.s.gens[j] == s.gens[j])
                  && var g, h := s.gens[id], r.s.gens[id];
                     && h.executing && h.active == g.active && h.has == g.has && h.built == g.built
                     && h.log == g.log + Events(calls, s.clock, env)
                     && h.publicURL == (if g.has.edge then env(s.clock + 3).text else "")
                     && h.watch.monitors == 1)
  {
    hide ActivationCalls, Events, FirstFailure, Activate, Rollback, Watching, Monitored, Ready, FailedFor, Supplied;
    hide Registers, Among, Underway, OthersRetired;
    var g := s.gens[id];
    var w := Activate(d, g, s.clock, env);
    ReadyToRun(d, g, s.clock);
    ActivationExactly(d, g, s.clock, env);
    ActivatedParts(d, g, s.clock, env);
    var active := s.(gens := s.gens[id := w.g], clock := w.clock);
    ActivationUnderway(d, s, id, active, env);
    if w.err != [] {
      RollbackRecords(d, active, w.err, env);
    } else {
      var u := Update(active, running, env);
      if u.err != [] { RollbackRecords(d, u.s, u.err, env); }
      else { MonitorsOne(u.s, id); }
    }
  }

  /** After the activation, whether it succeeded or not, the generation can be rolled back. */
  lemma {:induction false} ActivationUnderway(d: Deps, s: Sup, id: nat, active: Sup, env: Env)
    requires OthersRetired(d, s) && s.slot == Some(id) && Ready(d, s.gens[id], s.clock)
    requires var w := Activate(d, s.gens[id], s.clock, env);
             active == s.(gens := s.gens[id := w.g], clock := w.clock)
    ensures Underway(d, active)
    ensures forall next :: Underway(d, Update(active, next, env).s)
  {
    hide Ready, Core, Settled, Retired, Exclusive, Activate, Watched;
    var w := Activate(d, s.gens[id], s.clock, env);
    ReadyIsBuilt(d, s.gens[id], s.clock);
    ActivationSettles(d, s.gens[id], s.clock, env);
    ActivationInOrder(d, s.gens[id], s.clock, env);
    CoreIsBuilt(d, w.g, w.clock);
    OthersStay(d, s, active);
    forall next ensures Underway(d, Update(active, next, env).s) {
      var u := Update(active, next, env).s;
      OthersLater(d, active, u);
      Later(d, w.g, w.clock, u.clock);
    }
  }

  lemma {:induction false} ReadyToRun(d: Deps, g: Gen, clock: nat)
    requires Ready(d, g, clock)
    ensures !g.executing && !g.watch.fatal && g.watch.monitors == 0 && g.built && g.has == Supplied(d)
  {
    hide Steps, Has, Held, PauseSound, Timed, StepsSucceeded;
  }

  lemma {:induction false} ActivatedParts(d: Deps, g: Gen, clock: nat, env: Env)
    requires Ready(d, g, clock)
    ensures var h := Activate(d, g, clock, env).g;
            h.has == g.has && h.built == g.built && h.watch.monitors == g.watch.monitors
  {
    hide ActivationPlan, Perform, Activating;
    ActivationPlanSuits(d, g);
    PerformActivating(d, ActivationPlan(d, g), Work(g, clock, "", []), env);
  }

  lemma MonitorsOne(s: Sup, id: nat)
    requires id < |s.gens|
    ensures var r := Monitored(s, id);
            && r == s.(gens := r.gens) && |r.gens| == |s.gens|
            && (forall j :: 0 <= j < |s.gens| && j != id ==> r.gens[j] == s.gens[j])
            && r.gens[id] == s.gens[id].(watch := s.gens[id].watch.(monitors := s.gens[id].watch.monitors + 1))
  {
  }

  /** A construction that fails leaves an object that is cleaned up and never used. */
  lemma {:induction false} CreateExactly(d: Deps, s: Sup, cfg: Config, env: Env)
    requires OthersRetired(d, s) && s.slot.None? && Wired(env)
    ensures var r := Create(d, s, cfg, env); var n := |s.gens|;
            var failure := if d.api then FirstFailure(ConstructionCalls(d), s.clock, env) else [NoApiConstructor];
            && r.s.st == s.st && r.s.saves == s.saves && r.s.slot.None? && failure <= r.err
            && (failure == [] <==> r.err == [])
            && (r.err == [] ==>
                  && |r.s.gens| == n + 1 && r.s.gens[..n] == s.gens && r.s.clock == ActivatedAt(d, s.clock, env)
                  && Ready(d, r.s.gens[n], r.s.clock) && r.s.gens[n].active == cfg
                  && OthersRetired(d, r.s.(slot := Some(n)))
                  && r.s.gens[n].log == Events(ConstructionCalls(d), s.clock, env))
  {
    hide Construct, Teardown, Ready, Retired, Exclusive, Events, FirstFailure, ConstructionCalls;
    CreateKeeps(d, s, cfg, env);
    ConstructionExactly(d, cfg, s.clock, env);
  }

  /** The making of a generation for this configuration: it succeeds exactly without an obstacle, and then
      that generation runs in the slot; otherwise the obstacle is the first cause of the failure. */
  lemma {:induction false} BuildExactly(d: Deps, s: Sup, cfg: Config, env: Env)
    requires Quiet(d, s) && s.slot.None? && Wired(env) && s.st.desired.DesiredRunning?
    ensures var r := CreateAndLaunch(d, s, cfg, env); var why := Obstacle(d, s.clock, env);
            && (why != [] ==> FailedFor(r, why) && r.err != [])
            && (why == [] ==>
                  && r.err == [] && MadeOne(d, s, r.s, cfg, s.clock, env)
                  && r.s.st == State(DesiredRunning, ActualRunning, s.st.lastError)
                  && r.s.saves == s.saves + [Save(r.s.st, true)] && r.s.gens[|s.gens|].watch.monitors == 1)
  {
    hide Create, Launch, Ready, Quiet, FailedFor, Events, FirstFailure, ConstructionCalls, ActivationCalls;
    hide Fail, OthersRetired;
    assert OthersRetired(d, s) by { QuietOthers(d, s); }
    var made := Create(d, s, cfg, env);
    CreateExactly(d, s, cfg, env);
    var n := |s.gens|;
    if made.err != [] {
      FailRecords(made.s, made.err, env);
      FirstOf(Fail(made.s, DesiredRunning, made.err, env), made.err,
              if d.api then FirstFailure(ConstructionCalls(d), s.clock, env) else [NoApiConstructor]);
    } else {
      var t := made.s.(slot := Some(n));
      var running := State(made.s.st.desired, ActualRunning, made.s.st.lastError);
      ReadyToRun(d, t.gens[n], t.clock);
      LaunchExactly(d, t, n, running, env);
    }
  }

  lemma QuietOthers(d: Deps, s: Sup)
    requires Quiet(d, s)
    ensures OthersRetired(d, s)
  {
  }

  lemma FirstOf(r: Outcome, err: Error, first: Error)
    requires FailedFor(r, err) && first <= err && err != []
    ensures FailedFor(r, first) && r.err != []
  {
  }

  // ---------------------------------------------------------------- the old generation

  /** The calls that take down whatever is in the slot. */
  function Removal(s: Sup, at: nat, pause: bool, env: Env): seq<Event>
    requires SlotValid(s)
  {
    if s.slot.Some? then TeardownEvents(s.gens[s.slot.value], at, pause, env) else []
  }

  /** What is left of a generation that was taken down. */
  function Remains(g: Gen, at: nat, pause: bool, env: Env): Gen {
    var events := TeardownEvents(g, at, pause, env);
    g.(executing := false, heartbeat := false, log := g.log + events, closed := ClosedAfter(g, events),
       publicURL := if Succeeded(StopEdge, events) then "" else g.publicURL)
  }

  /** The generations once the one in the slot was taken down. */
  function Emptied(s: Sup, at: nat, pause: bool, env: Env): seq<Gen>
    requires SlotValid(s)
  {
    if s.slot.Some? then s.gens[s.slot.value := Remains(s.gens[s.slot.value], at, pause, env)] else s.gens
  }

  /** Whether the slot is free then. */
  predicate Freed(s: Sup, at: nat, pause: bool, env: Env)
    requires SlotValid(s)
  {
    s.slot.Some? ==> Closed(Remains(s.gens[s.slot.value], at, pause, env))
  }

  lemma {:induction false} RemainsExactly(g: Gen, at: nat, pause: bool, env: Env)
    ensures var t := Teardown(g, at, pause, env); var events := TeardownEvents(g, at, pause, env);
            && t.g == Remains(g, at, pause, env) && t.clock == at + |events| && t.remote + t.local == Failures(events)
            && (!pause ==> t.remote == [])
  {
    hide Teardown, TeardownEvents, Failures, ClosedAfter, Succeeded;
    TeardownExactly(g, at, pause, env);
    if !pause { assert Failures([]) == [] by { NoFailures(); } }
  }

  lemma NoFailures()
    ensures Failures([]) == []
  {
  }

  lemma {:induction false} DemolishExactly(d: Deps, s: Sup, pause: bool, env: Env)
    requires Quiet(d, s) && s.slot.Some? && (pause || !Executing(s))
    ensures var c := Demolish(s, s.slot.value, pause, env); var events := Removal(s, s.clock, pause, env);
            && c.s == s.(gens := Emptied(s, s.clock, pause, env), clock := s.clock + |events|)
            && c.remote + c.local == Failures(events) && (!pause ==> c.remote == [])
            && (c.local == [] <==> Freed(s, s.clock, pause, env))
            && (Closed(c.s.gens[s.slot.value]) <==> c.local == [])
            && Quiet(d, c.s) && !Executing(c.s) && (c.local == [] ==> Quiet(d, c.s.(slot := None)))
            && (c.local != [] ==> HoldsOn(c.s))
  {
    hide Retired, Exclusive, Settled, Watched, Teardown, TeardownEvents, Remains, Closed, Failures, Underway;
    QuietUnderway(d, s);
    DemolishQuiet(d, s, pause, env);
    RemainsExactly(s.gens[s.slot.value], s.clock, pause, env);
  }

  /** Closing reports what failed and records it; the slot is empty exactly if everything was released. */
  lemma {:induction false} CloseExactly(d: Deps, s: Sup, env: Env)
    requires Inv(d, s)
    ensures var r := Close(s, env); var events := Removal(s, s.clock, true, env); var at := s.clock + |events|;
            var free := Freed(s, s.clock, true, env);
            var last := if s.slot.Some? then Failures(events) else s.st.lastError;
            && r.s.st == State(s.st.desired, if free then ActualStopped else ActualFailed, last)
            && r.s.slot == (if free then None else s.slot) && r.s.gens == Emptied(s, s.clock, true, env)
            && r.s.saves == s.saves + [Written(r.s.st, at, env)] && r.err == Failures(events) + Saving(at, env)
  {
    hide Quiet, Demolish, Closed, Removal, Emptied, Freed, Failures;
    if s.slot.Some? {
      DemolishExactly(d, s, true, env);
    } else {
      EmptySlot(s, s.clock, true, env);
    }
  }

  lemma EmptySlot(s: Sup, at: nat, pause: bool, env: Env)
    requires s.slot.None?
    ensures Removal(s, at, pause, env) == [] && Emptied(s, at, pause, env) == s.gens && Freed(s, at, pause, env)
    ensures Failures([]) == []
  {
  }

  /** Stopping, likewise, after it has recorded that it is stopping. */
  lemma {:induction false} StopExactly(d: Deps, s: Sup, env: Env)
    requires Inv(d, s)
    ensures var r := Stop(s, env); var from := s.clock + 1;
            var events := Removal(s, from, true, env); var at := from + |events|; var free := Freed(s, from, true, env);
            && r.s.st == State(DesiredStopped, if free then ActualStopped else ActualFailed, Failures(events))
            && r.s.slot == (if free then None else s.slot) && r.s.gens == Emptied(s, from, true, env)
            && r.s.saves == s.saves + [Written(State(DesiredStopped, ActualStopping, []), s.clock, env),
                                       Written(r.s.st, at, env)]
            && r.err == Saving(s.clock, env) + Failures(events) + Saving(at, env)
  {
    hide Quiet, Demolish, Closed, Removal, Emptied, Freed, Failures;
    var stopping := State(DesiredStopped, ActualStopping, []);
    var u := Update(s, stopping, env);
    UpdateQuiet(d, s, stopping, env);
    SameSlot(s, u.s, s.clock + 1, true, env);
    if s.slot.Some? {
      DemolishExactly(d, u.s, true, env);
    } else {
      EmptySlot(s, s.clock + 1, true, env);
    }
  }

  lemma SameSlot(s: Sup, u: Sup, at: nat, pause: bool, env: Env)
    requires u.slot == s.slot && u.gens == s.gens && SlotValid(s)
    ensures Removal(u, at, pause, env) == Removal(s, at, pause, env)
            && Emptied(u, at, pause, env) == Emptied(s, at, pause, env)
    ensures Freed(u, at, pause, env) == Freed(s, at, pause, env)
  {
  }

  /** A failure of the generation that executes takes it down: this is recorded, with the failure first. */
  lemma {:induction false} HandlesExactly(d: Deps, s: Sup, id: nat, env: Env)
    requires Inv(d, s) && s.slot == Some(id) && Executing(s) && s.gens[id].watch.inFlight > 0
    ensures var r := MonitorHandles(s, id, env); var events := TeardownEvents(s.gens[id], s.clock, true, env);
            var free := Freed(s, s.clock, true, env); var w := s.gens[id].watch;
            && r.st == State(DesiredRunning, ActualFailed, [ComponentFailed] + Failures(events))
            && r.slot == (if free then None else s.slot)
               && r.saves == s.saves + [Written(r.st, s.clock + |events|, env)]
            && r.gens == s.gens[id := Remains(s.gens[id], s.clock, true, env).(watch := w.(inFlight := w.inFlight - 1))]
  {
    hide Quiet, Teardown, Closed, TeardownEvents, Remains, Failures, Retired, Exclusive, Settled, Watched, Underway;
    var w := s.gens[id].watch;
    var done := w.(inFlight := w.inFlight - 1);
    assert Quiet(d, s);
    FailureUnderway(d, s, id, done);
    DemolishQuiet(d, Watching(s, id, done), true, env);
    RemainsExactly(s.gens[id].(watch := done), s.clock, true, env);
    WatchStays(s.gens[id], done, s.clock, env);
    ClosedStays(Remains(s.gens[id], s.clock, true, env), done);
  }

  lemma WatchStays(g: Gen, w: Watch, at: nat, env: Env)
    ensures Remains(g.(watch := w), at, true, env) == Remains(g, at, true, env).(watch := w)
    ensures TeardownEvents(g.(watch := w), at, true, env) == TeardownEvents(g, at, true, env)
  {
    hide Succeeded;
    WatchIsNoPart(g, g.(watch := w), at, env);
  }

  lemma WatchIsNoPart(g: Gen, h: Gen, at: nat, env: Env)
    requires h == g.(watch := h.watch)
    ensures TeardownEvents(h, at, true, env) == TeardownEvents(g, at, true, env)
  {
    hide ReleaseEvents;
    var pauses := Once(g.has.lifecycle && g.registered, Pause, at, env);
    PartsAlike(h, g, at + |pauses|, env);
  }

  // ---------------------------------------------------------------- starting and replacing

  /** The configuration is loaded and checked, and a generation made for it. */
  ghost predicate LoadsAndBuilds(d: Deps, r: Outcome, gens: seq<Gen>, at: nat, env: Env) {
    var why := if !env(at).ok then [CallFailed(LoadConfig)] else if !env(at + 1).ok then [CallFailed(ValidateConfig)]
               else Obstacle(d, at + 2, env);
    if why != [] then FailedFor(r, why) && r.err != []
    else
      && r.err == [] && r.s.st == State(DesiredRunning, ActualRunning, [])
      && r.s.slot == Some(|gens|) && |r.s.gens| == |gens| + 1 && r.s.gens[..|gens|] == gens
      && RunsAs(d, r.s.gens[|gens|], env(at).cfg, at + 2, env)
  }

  lemma {:induction false} LoadExactly(d: Deps, s: Sup, env: Env)
    requires Quiet(d, s) && s.slot.None? && Wired(env) && s.st.desired.DesiredRunning? && s.st.lastError == []
    ensures LoadsAndBuilds(d, LoadAndLaunch(d, s, env), s.gens, s.clock, env)
  {
    hide Quiet, CreateAndLaunch, Fail, FailedFor, RunsAs, Obstacle;
    if !env(s.clock).ok {
      FailRecords(s.(clock := s.clock + 1), [CallFailed(LoadConfig)], env);
      FirstOf(Fail(s.(clock := s.clock + 1), DesiredRunning, [CallFailed(LoadConfig)], env), [CallFailed(LoadConfig)],
              [CallFailed(LoadConfig)]);
    } else if !env(s.clock + 1).ok {
      FailRecords(s.(clock := s.clock + 2), [CallFailed(ValidateConfig)], env);
      FirstOf(Fail(s.(clock := s.clock + 2), DesiredRunning, [CallFailed(ValidateConfig)], env),
              [CallFailed(ValidateConfig)], [CallFailed(ValidateConfig)]);
    } else {
      var t := s.(clock := s.clock + 2);
      QuietLater(d, s, t);
      BuildExactly(d, t, env(s.clock).cfg, env);
    }
  }

  /** Starting while nothing executes: what is left in the slot is removed without a pause, and only once it is closed a
      generation is made for the configuration that is loaded then. */
  lemma {:induction false} StartExactly(d: Deps, s: Sup, restore: bool, env: Env)
    requires Quiet(d, s) && Wired(env) && (restore ==> Inv(d, s)) && (!restore ==> s.slot.None?)
    ensures var r := StartLocked(d, s, restore, env); var from := s.clock + 1;
            var starting := Written(State(DesiredRunning, ActualStarting, []), s.clock, env);
            if !env(s.clock).ok then
              if restore then r == Outcome(s.(saves := s.saves + [starting], clock := from), [CallFailed(SaveState)])
              else FailedFor(r, [CallFailed(SaveState)]) && r.err != []
            else if Executing(s) then
              && r.s.st == State(DesiredRunning, ActualRunning, []) && r.s.gens == s.gens && r.s.slot == s.slot
              && r.s.saves == s.saves + [starting, Written(r.s.st, from, env)] && r.err == Saving(from, env)
            else if !Freed(s, from, false, env) then
              FailedFor(r, Failures(Removal(s, from, false, env))) && r.err != [] && r.s.slot == s.slot
              && r.s.gens == Emptied(s, from, false, env)
            else
              LoadsAndBuilds(d, r, Emptied(s, from, false, env), from + |Removal(s, from, false, env)|, env)
  {
    hide Quiet, Demolish, LoadAndLaunch, LoadsAndBuilds, FailedFor, Removal, Emptied, Freed, Failures, Closed;
    var starting := State(DesiredRunning, ActualStarting, []);
    var u := Update(s, starting, env);
    UpdateQuiet(d, s, starting, env);
    assert SlotValid(s) by { QuietSlot(d, s); }
    if u.err != [] {
      if !restore {
        FailRecords(u.s, u.err, env);
        FirstOf(Fail(u.s, DesiredRunning, u.err, env), u.err, u.err);
      }
    } else if !Executing(s) {
      SameSlot(s, u.s, s.clock + 1, false, env);
      if s.slot.Some? {
        DemolishExactly(d, u.s, false, env);
        var c := Demolish(u.s, s.slot.value, false, env);
        if c.local != [] {
          FailRecords(c.s, c.local, env);
          FirstOf(Fail(c.s, DesiredRunning, c.local, env), c.local, c.local);
          assert [] + c.local == c.local;
        } else {
          LoadExactly(d, c.s.(slot := None), env);
        }
      } else {
        EmptySlot(s, s.clock + 1, false, env);
        LoadExactly(d, u.s, env);
      }
    }
  }

  lemma QuietSlot(d: Deps, s: Sup)
    requires Quiet(d, s)
    ensures SlotValid(s)
  {
  }

  /** A generation is made for this configuration, after these. */
  ghost predicate Builds(d: Deps, r: Outcome, gens: seq<Gen>, cfg: Config, at: nat, env: Env) {
    var why := Obstacle(d, at, env);
    if why != [] then FailedFor(r, why) && r.err != []
    else
      && r.err == [] && r.s.st == State(DesiredRunning, ActualRunning, [])
      && r.s.slot == Some(|gens|) && |r.s.gens| == |gens| + 1 && r.s.gens[..|gens|] == gens
      && RunsAs(d, r.s.gens[|gens|], cfg, at, env)
  }

  /** Restarting: the generation in use is paused and removed, and one made for the configuration
      that is loaded then. */
  lemma {:induction false} RestartExactly(d: Deps, s: Sup, env: Env)
    requires Inv(d, s) && Wired(env)
    ensures var r := Restart(d, s, env); var from := s.clock + 1; var events := Removal(s, from, true, env);
            var stopping := Written(State(DesiredRunning, ActualStopping, []), s.clock, env);
            if !env(s.clock).ok then r == Outcome(s.(saves := s.saves + [stopping], clock := from),
                                                  [CallFailed(SaveState)])
            else if !Freed(s, from, true, env) then
              FailedFor(r, Failures(events)) && r.err != [] && r.s.slot == s.slot
              && r.s.gens == Emptied(s, from, true, env)
            else if !env(from + |events|).ok then FailedFor(r, [CallFailed(SaveState)]) && r.err != []
            else LoadsAndBuilds(d, r, Emptied(s, from, true, env), from + |events| + 1, env)
  {
    hide Quiet, Demolish, StartLocked, LoadsAndBuilds, FailedFor, Removal, Emptied, Freed, Failures, Closed;
    var stopping := State(DesiredRunning, ActualStopping, []);
    var u := Update(s, stopping, env);
    UpdateQuiet(d, s, stopping, env);
    if u.err == [] {
      SameSlot(s, u.s, s.clock + 1, true, env);
      if s.slot.Some? {
        DemolishExactly(d, u.s, true, env);
        var c := Demolish(u.s, s.slot.value, true, env);
        if c.local != [] {
          FailRecords(c.s, c.remote + c.local, env);
          FirstOf(Fail(c.s, DesiredRunning, c.remote + c.local, env), c.remote + c.local, c.remote + c.local);
        } else {
          StartsEmpty(d, c.s.(slot := None), env);
        }
      } else {
        EmptySlot(s, s.clock + 1, true, env);
        StartsEmpty(d, u.s, env);
      }
    }
  }

  lemma {:induction false} StartsEmpty(d: Deps, s: Sup, env: Env)
    requires Quiet(d, s) && Wired(env) && s.slot.None?
    ensures var r := StartLocked(d, s, false, env);
            if !env(s.clock).ok then FailedFor(r, [CallFailed(SaveState)]) && r.err != []
            else LoadsAndBuilds(d, r, s.gens, s.clock + 1, env)
  {
    hide Quiet, StartLocked, LoadsAndBuilds, FailedFor, Removal, Emptied, Freed;
    StartExactly(d, s, false, env);
    EmptySlot(s, s.clock + 1, false, env);
  }

  /** Reconciling while stopped is desired: what is in the slot is removed, and nothing is made. */
  lemma {:induction false} ReconcileStoppedExactly(d: Deps, s: Sup, cfg: Config, env: Env)
    requires Inv(d, s) && s.st.desired.DesiredStopped?
    ensures var r := Reconcile(d, s, cfg, env); var events := Removal(s, s.clock, false,
                                                                      env); var at := s.clock + |events|;
            var free := Freed(s, s.clock, false, env);
            && r.s.st == State(DesiredStopped, if free then ActualStopped else ActualFailed,
                               if free then [] else Failures(events))
            && r.s.slot == (if free then None else s.slot) && r.s.gens == Emptied(s, s.clock, false, env)
            && r.s.saves == s.saves + [Written(r.s.st, at, env)] && r.err == r.s.st.lastError + Saving(at, env)
  {
    hide Quiet, Demolish, Closed, Removal, Emptied, Freed, Failures;
    if s.slot.Some? { DemolishExactly(d, s, false, env); } else { EmptySlot(s, s.clock, false, env); }
  }

  /** Reconciling while running is desired: the generation in use is paused and removed; if all of
      that succeeds a generation is made for the configuration that was handed over, and it is this one that runs. */
  lemma {:induction false} ReconcileExactly(d: Deps, s: Sup, cfg: Config, env: Env)
    requires Inv(d, s) && Wired(env) && s.st.desired.DesiredRunning?
    ensures var r := Reconcile(d, s, cfg, env); var events := Removal(s, s.clock, true,
                                                                      env); var at := s.clock + |events|;
            var gens := Emptied(s, s.clock, true, env);
            if Failures(events) != [] then
              && FailedFor(r, Failures(events)) && r.err != [] && r.s.gens == gens
              && r.s.slot == (if Freed(s, s.clock, true, env) then None else s.slot)
            else if !env(at).ok then FailedFor(r, [CallFailed(SaveState)]) && r.err != [] && r.s.gens == gens
                 && r.s.slot.None?
            else Builds(d, r, gens, cfg, at + 1, env)
  {
    hide Quiet, Demolish, Closed, Removal, Emptied, Freed, Failures, Replace, Builds, FailedFor;
    if s.slot.Some? {
      DemolishExactly(d, s, true, env);
      var c := Demolish(s, s.slot.value, true, env);
      if c.local != [] {
        FailRecords(c.s, c.remote + c.local, env);
        FirstOf(Fail(c.s, DesiredRunning, c.remote + c.local, env), c.remote + c.local, c.remote + c.local);
      } else if c.remote != [] {
        assert c.remote + c.local == c.remote;
        FailRecords(c.s.(slot := None), c.remote, env);
        FirstOf(Fail(c.s.(slot := None), DesiredRunning, c.remote, env), c.remote, c.remote);
      } else {
        ReplaceExactly(d, c.s.(slot := None), cfg, env);
      }
    } else {
      EmptySlot(s, s.clock, true, env);
      ReplaceExactly(d, s, cfg, env);
    }
  }

  lemma {:induction false} ReplaceExactly(d: Deps, s: Sup, cfg: Config, env: Env)
    requires Quiet(d, s) && s.slot.None? && Wired(env) && s.st.desired.DesiredRunning?
    ensures var r := Replace(d, s, cfg, env);
            if !env(s.clock).ok then FailedFor(r, [CallFailed(SaveState)]) && r.err != [] && r.s.gens == s.gens
               && r.s.slot.None?
            else Builds(d, r, s.gens, cfg, s.clock + 1, env)
  {
    hide Quiet, CreateAndLaunch, FailedFor, RunsAs, Obstacle;
    var stopped := State(s.st.desired, ActualStopped, []);
    var u := Update(s, stopped, env);
    UpdateQuiet(d, s, stopped, env);
    if u.err != [] {
      FailRecords(u.s, u.err, env);
      FirstOf(Fail(u.s, DesiredRunning, u.err, env), u.err, u.err);
    } else {
      BuildExactly(d, u.s, cfg, env);
    }
  }

  /** In short: a reconcile that returns nil while running is desired runs the configuration it was
      given, and a start or restart that makes a generation the one that was loaded. */
  lemma {:induction false} RunsWhatWasAsked(d: Deps, s: Sup, cfg: Config, env: Env)
    requires Inv(d, s) && Wired(env)
    ensures var r := Reconcile(d, s, cfg, env);
            r.err == [] && s.st.desired.DesiredRunning? ==>
              |r.s.gens| == |s.gens| + 1 && r.s.slot == Some(|s.gens|) && r.s.gens[|s.gens|].executing
              && r.s.gens[|s.gens|].active == cfg
    ensures var r := Start(d, s, env); var at := s.clock + 1 + |Removal(s, s.clock + 1, false, env)|;
            r.err == [] && !Executing(s) ==>
              |r.s.gens| == |s.gens| + 1 && r.s.slot == Some(|s.gens|) && r.s.gens[|s.gens|].executing
              && r.s.gens[|s.gens|].active == env(at).cfg
    ensures var r := Restart(d, s, env); var at := s.clock + 2 + |Removal(s, s.clock + 1, true, env)|;
            r.err == [] ==>
              |r.s.gens| == |s.gens| + 1 && r.s.slot == Some(|s.gens|) && r.s.gens[|s.gens|].executing
              && r.s.gens[|s.gens|].active == env(at).cfg
  {
    hide Quiet, Reconcile, StartLocked, Restart, FailedFor, Obstacle, Removal, Remains, Failures, Freed;
    if s.st.desired.DesiredRunning? { ReconcileExactly(d, s, cfg, env); }
    StartExactly(d, s, true, env);
    RestartExactly(d, s, env);
  }

  // ---------------------------------------------------------------- light applies and requests

  /** The last device with this ID is enabled, physical and at the same address. */
  ghost predicate AsBefore(devices: seq<Device>, d: Device) {
    exists k :: 0 <= k < |devices| && devices[k].id == d.id && devices[k].enabled && devices[k].physical
                && devices[k].address == d.address && forall j :: k < j < |devices| ==> devices[j].id != d.id
  }

  lemma {:induction false} PreviousExactly(devices: seq<Device>, d: Device)
    ensures Unchanged(Previous(devices, d.id), d) <==> AsBefore(devices, d)
  {
    if devices != [] {
      var n := |devices| - 1;
      var before := devices[..n];
      PreviousExactly(before, d);
      if devices[n].id != d.id {
        if AsBefore(before, d) {
          var k :| 0 <= k < n && before[k].id == d.id && before[k].enabled && before[k].physical
                   && before[k].address == d.address && forall j :: k < j < n ==> before[j].id != d.id;
          assert devices[k] == before[k] && forall j :: k < j <= n ==> devices[j].id != d.id;
        }
        if AsBefore(devices, d) {
          var k :| 0 <= k <= n && devices[k].id == d.id && devices[k].enabled && devices[k].physical
                   && devices[k].address == d.address && forall j :: k < j <= n ==> devices[j].id != d.id;
          assert before[k] == devices[k] && forall j :: k < j < n ==> before[j].id != d.id;
        }
      }
    }
  }

  /** A device is checked exactly if it is enabled and physical and was not so before at its address. */
  lemma {:induction false} ChangedExactly(active: Config, candidate: Config, d: Device)
    ensures d in ChangedPhysical(active, candidate)
            <==> d in candidate.devices && d.enabled && d.physical && !AsBefore(active.devices, d)
  {
    hide Unchanged, AsBefore;
    ChangedAmongExactly(active, candidate.devices, d);
  }

  lemma {:induction false} ChangedAmongExactly(active: Config, devices: seq<Device>, d: Device)
    ensures d in ChangedAmong(active, devices)
            <==> d in devices && d.enabled && d.physical && !AsBefore(active.devices, d)
  {
    hide Unchanged, AsBefore;
    if devices != [] {
      var last := devices[|devices| - 1];
      ChangedAmongExactly(active, devices[..|devices| - 1], d);
      PreviousExactly(active.devices, last);
      assert devices == devices[..|devices| - 1] + [last];
    }
  }

  /** A light apply on the generation in use: these calls up to the first that fails, and the
      candidate becomes active only if none does. */
  ghost predicate Applies(s: Sup, r: Outcome, calls: seq<Call>, cfg: Config, url: string, env: Env)
    requires SlotValid(s) && s.slot.Some?
  {
    var id := s.slot.value;
    var g := s.gens[id];
    var events := Events(calls, s.clock, env);
    var failed := FirstFailure(calls, s.clock, env);
    && r.err == failed && r.s == s.(gens := r.s.gens, clock := s.clock + |events|) && |r.s.gens| == |s.gens|
    && (forall j :: 0 <= j < |s.gens| && j != id ==> r.s.gens[j] == s.gens[j])
    && r.s.gens[id] == g.(log := g.log + events, active := if failed == [] then cfg else g.active,
                          publicURL := if failed == [] then url else g.publicURL,
                          registered := g.registered || Announces(events))
  }

  /** A registration succeeded, or failed after it had created the record. */
  ghost predicate Announces(events: seq<Event>) {
    exists e :: e in events && e.call == RegisterCandidate && (e.ok || e.effect)
  }

  lemma {:induction false} AskExactly(s: Sup, id: nat, c: Call, env: Env)
    requires id < |s.gens| && LightCall(c)
    ensures var r := Ask(s, id, c, env); var a := env(s.clock); var g := s.gens[id];
            && r.err == (if a.ok then [] else [CallFailed(c)])
            && r.s == s.(gens := s.gens[id := r.s.gens[id]], clock := s.clock + 1) && |r.s.gens| == |s.gens|
            && r.s.gens[id] == g.(log := g.log + [Event(c, a.ok, a.effect, s.clock)],
                                  registered := g.registered || (c == RegisterCandidate && (a.ok || a.effect)))
  {
  }

  /** No call or one. */
  function Call1(wanted: bool, c: Call, at: nat, env: Env): seq<Event> {
    if wanted then [Event(c, env(at).ok, env(at).effect, at)] else []
  }

  lemma {:induction false} AskIfExactly(s: Sup, id: nat, wanted: bool, c: Call, env: Env)
    requires id < |s.gens| && LightCall(c)
    ensures var r := AskIf(wanted, s, id, c, env); var events := Call1(wanted, c, s.clock, env); var g := s.gens[id];
            && r.err == (if wanted && !env(s.clock).ok then [CallFailed(c)] else [])
            && r.s == s.(gens := s.gens[id := g.(log := g.log + events,
                                                 registered := g.registered || Announces(events))],
                         clock := s.clock + |events|)
  {
    hide Ask;
    AskExactly(s, id, c, env);
    if wanted && c == RegisterCandidate { assert Call1(wanted, c, s.clock, env)[0] in Call1(wanted, c, s.clock, env); }
    if !wanted {
      assert Call1(wanted, c, s.clock, env) == [] && !Announces([]) && s.gens[id].log + [] == s.gens[id].log;
      assert s.gens[id := s.gens[id]] == s.gens;
    }
  }

  lemma {:induction false} LightExactly(
      d: Deps, s: Sup, checked: bool, check: Call, cfg: Config, url: string, env: Env)
    requires SlotValid(s) && Executing(s) && LightCall(check) && check != RegisterCandidate
    ensures Applies(s, LightApply(d, s, checked, check, cfg, url, env),
                    If(checked, [check]) + If(d.register, [RegisterCandidate]), cfg, url, env)
  {
    hide AskIf, Events, FirstFailure, Announces, Call1, If;
    var id, at := s.slot.value, s.clock;
    var u := AskIf(checked, s, id, check, env);
    var first := Call1(checked, check, at, env);
    AskIfExactly(s, id, checked, check, env);
    assert !Announces(first) by {
      CallsOf(checked, check, at, env);
      NoneAnnounced(first);
    }
    LightEvents(checked, check, d.register, at, env);
    if u.err == [] {
      var second := Call1(d.register, RegisterCandidate, at + |first|, env);
      AskIfExactly(u.s, id, d.register, RegisterCandidate, env);
      BothAnnounced(checked, check, d.register, at, env);
      assert s.gens[id].log + (first + second) == s.gens[id].log + first + second;
    }
  }

  lemma CallsOf(wanted: bool, c: Call, at: nat, env: Env)
    ensures forall e :: e in Call1(wanted, c, at, env) ==> e.call == c
  {
  }

  lemma {:induction false} BothAnnounced(checked: bool, check: Call, register: bool, at: nat, env: Env)
    requires check != RegisterCandidate
    ensures var first := Call1(checked, check, at, env); var second := Call1(register, RegisterCandidate, at + |first|,
                                                                             env);
            Announces(first + second) <==> Announces(second)
  {
    var first := Call1(checked, check, at, env);
    var second := Call1(register, RegisterCandidate, at + |first|, env);
    CallsOf(checked, check, at, env);
    assert forall e :: e in first + second <==> e in first || e in second;
  }

  lemma NoneAnnounced(events: seq<Event>)
    requires forall e :: e in events ==> e.call != RegisterCandidate
    ensures !Announces(events)
  {
  }

  lemma {:induction false} OneEvent(c: Call, rest: seq<Call>, at: nat, env: Env)
    requires LightCall(c)
    ensures Events([c] + rest, at, env)
            == [Event(c, env(at).ok, env(at).effect, at)] + (if env(at).ok then Events(rest, at + 1, env) else [])
    ensures FirstFailure([c] + rest, at, env) == if env(at).ok then FirstFailure(rest, at + 1, env) else [CallFailed(c)]
  {
    assert ([c] + rest)[1..] == rest;
  }

  lemma {:induction false} LightEvents(checked: bool, check: Call, register: bool, at: nat, env: Env)
    requires LightCall(check)
    ensures var calls := If(checked, [check]) + If(register, [RegisterCandidate]);
            var first := Call1(checked, check, at, env);
            var second := Call1(register, RegisterCandidate, at + |first|, env);
            && Events(calls, at, env) == (if checked && !env(at).ok then first else first + second)
            && FirstFailure(calls, at, env)
               == (if checked && !env(at).ok then [CallFailed(check)]
                   else if register && !env(at + |first|).ok then [CallFailed(RegisterCandidate)] else [])
  {
    hide Events, FirstFailure;
    var rest := If(register, [RegisterCandidate]);
    assert Events([], at, env) == [] && FirstFailure([], at, env) == [] by { NoEvents(at, env); }
    NoEvents(at + 1, env);
    NoEvents(at + 2, env);
    OneEvent(RegisterCandidate, [], if checked then at + 1 else at, env);
    assert [RegisterCandidate] + [] == [RegisterCandidate];
    if checked { OneEvent(check, rest, at, env); } else { assert [] + rest == rest; }
  }

  lemma NoEvents(at: nat, env: Env)
    ensures Events([], at, env) == [] && FirstFailure([], at, env) == []
  {
  }

  /** An inventory is applied only to the generation that executes; its devices are checked if some
      physical one is new or has moved, then it is registered under the URL in use. */
  lemma {:induction false} InventoryExactly(d: Deps, s: Sup, cfg: Config, env: Env)
    requires SlotValid(s)
    ensures var r := ApplyInventory(d, s, cfg, env);
            if !Executing(s) then r == Outcome(s, [NotRunning])
            else
              var g := s.gens[s.slot.value];
              var moved := exists x :: x in cfg.devices && x.enabled && x.physical && !AsBefore(g.active.devices, x);
              Applies(s, r, If(d.devices && moved, [ValidateDevices]) + If(d.register, [RegisterCandidate]), cfg,
                      g.publicURL, env)
  {
    hide LightApply, ChangedPhysical, AsBefore, Applies;
    if Executing(s) {
      var g := s.gens[s.slot.value];
      forall x ensures x in ChangedPhysical(g.active, cfg)
          <==> x in cfg.devices && x.enabled && x.physical && !AsBefore(g.active.devices, x) {
        ChangedExactly(g.active, cfg, x);
      }
      var changed := ChangedPhysical(g.active, cfg);
      if changed != [] { assert changed[0] in changed; }
      LightExactly(d, s, d.devices && changed != [], ValidateDevices, cfg, g.publicURL, env);
    }
  }

  /** An endpoint is verified and registered at the candidate's URL, which a manual mode takes from
      the configuration. */
  lemma {:induction false} EndpointExactly(d: Deps, s: Sup, cfg: Config, env: Env)
    requires SlotValid(s)
    ensures var r := ApplyEndpoint(d, s, cfg, env);
            if !Executing(s) then r == Outcome(s, [NotRunning])
            else
              var url := if cfg.manual then cfg.publicURL else s.gens[s.slot.value].publicURL;
              Applies(s, r, If(d.verify, [VerifyCandidate]) + If(d.register, [RegisterCandidate]), cfg, url, env)
  {
    hide LightApply, Applies;
    if Executing(s) {
      LightExactly(d, s, d.verify, VerifyCandidate, cfg,
                   if cfg.manual then cfg.publicURL else s.gens[s.slot.value].publicURL, env);
    }
  }

  /** A requested start asks for running, clears a failure and the last error, and touches nothing else. */
  lemma RequestExactly(s: Sup, env: Env)
    ensures var r := RequestStart(s, env);
            && r.s == s.(st := r.s.st, saves := s.saves + [Written(r.s.st, s.clock, env)], clock := s.clock + 1)
            && r.s.st.desired.DesiredRunning? && r.s.st.lastError == [] && r.err == Saving(s.clock, env)
            && r.s.st.actual == (if s.st.actual == ActualFailed then ActualStopped else s.st.actual)
  {
  }
}
