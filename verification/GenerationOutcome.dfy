/** Which calls the three sequences of a generation make, in full and in order, and what they leave
    behind, in terms of the answers of the environment. */
module GenerationOutcome {
  import opened Generation
  import opened GenerationProofs

  // ---------------------------------------------------------------- construction and activation

  function Calls(p: Plan): seq<Call>
    decreases p
  {
    if p.Done? then [] else [p.call] + Calls(p.rest)
  }

  function If(wanted: bool, calls: seq<Call>): seq<Call> { if wanted then calls else [] }

  /** Telemetry first, then the API, workers and lifecycle, and the edge. */
  function ConstructionCalls(d: Deps): seq<Call> {
    If(d.observability, [InitObservability]) + [NewApi, NewWorkers] + If(d.edge, [NewEdge])
  }

  /** API, edge, checks, registration, workers, lifecycle, and publication last; the failure buffer is
      looked at after every part that can forward a failure. */
  function ActivationCalls(d: Deps, has: Parts): seq<Call> {
    [StartApi, PollFailures] + If(has.edge, [LocalOrigin, StartEdge, PollFailures]) + LaterCalls(d, has) + [Publish]
  }

  function LaterCalls(d: Deps, has: Parts): seq<Call> {
    If(d.capabilities, [CheckCapabilities]) + If(d.verify, [VerifyEndpoint]) + [PollFailures]
    + If(d.register, [Register]) + [PollFailures] + If(has.workers, [StartWorkers])
    + If(has.lifecycle, [PollFailures, Resume, Heartbeat, PollFailures, StartHeartbeatLoop]) + [PollFailures]
  }

  lemma ConstructionCallsExactly(d: Deps)
    ensures Calls(ConstructionPlan(d)) == ConstructionCalls(d)
  {
  }

  lemma LastCalls(g: Gen)
    ensures Calls(WorkersPlan(g)) == If(g.has.workers, [StartWorkers])
        + If(g.has.lifecycle, [PollFailures, Resume, Heartbeat, PollFailures, StartHeartbeatLoop]) + [PollFailures,
                                                                                                      Publish]
  {
  }

  lemma RegistrationCalls(d: Deps, g: Gen)
    ensures Calls(RegistrationPlan(d, g)) == If(d.register, [Register]) + [PollFailures] + Calls(WorkersPlan(g))
  {
    hide WorkersPlan;
  }

  lemma EndpointCalls(d: Deps, g: Gen)
    ensures Calls(EndpointPlan(d, g)) == If(d.verify, [VerifyEndpoint]) + [PollFailures] + Calls(RegistrationPlan(d, g))
  {
    hide RegistrationPlan;
  }

  lemma CapabilityCalls(d: Deps, g: Gen)
    ensures Calls(CapabilityPlan(d, g)) == If(d.capabilities, [CheckCapabilities]) + Calls(EndpointPlan(d, g))
  {
    hide EndpointPlan;
  }

  lemma EdgeCalls(d: Deps, g: Gen)
    ensures Calls(ActivationPlan(d, g))
            == [StartApi, PollFailures] + If(g.has.edge,
                                             [LocalOrigin, StartEdge, PollFailures]) + Calls(CapabilityPlan(d, g))
  {
    hide CapabilityPlan;
  }

  lemma ActivationCallsExactly(d: Deps, g: Gen)
    ensures Calls(ActivationPlan(d, g)) == ActivationCalls(d, g.has)
  {
    hide ActivationPlan, CapabilityPlan, EndpointPlan, RegistrationPlan, WorkersPlan, Calls, If;
    EdgeCalls(d, g);
    CapabilityCalls(d, g);
    EndpointCalls(d, g);
    RegistrationCalls(d, g);
    LastCalls(g);
  }

  /** The call lets the sequence go on. */
  predicate Passes(c: Call, a: Answer) {
    match c
    case PollFailures => !a.effect
    case NewApi => a.ok && !a.nothing
    case NewWorkers => true
    case StartHeartbeatLoop => true
    case Publish => true
    case StopWorkers => true
    case _ => a.ok
  }

  function CauseOf(c: Call): Cause { if c == PollFailures then ComponentFailed else CallFailed(c) }

  /** The failure buffer can be filled only by the publication, which comes last. */
  predicate PublishesLast(p: Plan)
    decreases p
  {
    p.Then? ==> (p.call == Publish ==> p.rest.Done?) && PublishesLast(p.rest)
  }

  lemma {:induction false} OneCall(d: Deps, w: Work, c: Call, env: Env)
    requires !w.g.watch.fatal
    ensures var n := Attempt(d, w, c, env); var a := env(w.clock);
            && n.g.log == w.g.log + [Event(c, a.ok || Infallible(c), a.effect, w.clock)] && n.clock == w.clock + 1
            && n.err == (if Passes(c, a) then [] else [CauseOf(c)])
            && n.url == (if c == StartEdge && a.ok then a.text else w.url)
            && (n.g.watch.fatal <==> c == Publish && a.effect)
            && (n.g.watch.forwarded <==> w.g.watch.forwarded || ((c == Publish || c == PollFailures) && a.effect))
            && n.g.publicURL == (if c == Publish then w.url else w.g.publicURL)
            && n.g.executing == (w.g.executing || c == Publish)
               && n.g.heartbeat == (w.g.heartbeat || c == StartHeartbeatLoop)
            && n.g.registered == (w.g.registered || (c == Register && (a.ok || a.effect)))
            && n.g.active == w.g.active && n.g.built == w.g.built
  {
  }

  function Made(c: Call, at: nat, env: Env): Event { Event(c, env(at).ok || Infallible(c), env(at).effect, at) }

  /** The calls are made one after the other up to the first that does not pass. */
  function Events(calls: seq<Call>, at: nat, env: Env): seq<Event> {
    if calls == [] then []
    else [Made(calls[0], at, env)] + if Passes(calls[0], env(at)) then Events(calls[1..], at + 1, env) else []
  }

  /** Which is the error. */
  function FirstFailure(calls: seq<Call>, at: nat, env: Env): Error {
    if calls == [] then []
    else if Passes(calls[0], env(at)) then FirstFailure(calls[1..], at + 1, env)
    else [CauseOf(calls[0])]
  }

  /** The URL is the text with which the edge answered its start. */
  function UrlAfter(calls: seq<Call>, at: nat, env: Env, url: string): string {
    if calls == [] then url
    else
      var here := if calls[0] == StartEdge && env(at).ok then env(at).text else url;
      if Passes(calls[0], env(at)) then UrlAfter(calls[1..], at + 1, env, here) else here
  }

  ghost predicate Among(c: Call, events: seq<Event>) { exists e :: e in events && e.call == c }

  ghost predicate Registers(events: seq<Event>) { exists e :: e in events && e.call == Register && (e.ok || e.effect) }

  /** A failure was forwarded: after the last look at the buffer, where it then stays, or before one. */
  ghost predicate Fills(events: seq<Event>) { exists e :: e in events && e.call == Publish && e.effect }
  ghost predicate Noticed(events: seq<Event>) { exists e :: e in events && e.call == PollFailures && e.effect }

  /** The generation afterwards, by the calls that were made. */
  ghost predicate Marked(events: seq<Event>, w: Work, r: Work) {
    && r.g.log == w.g.log + events && r.clock == w.clock + |events|
    && (r.g.executing <==> w.g.executing || Among(Publish, events))
    && (r.g.heartbeat <==> w.g.heartbeat || Among(StartHeartbeatLoop, events))
    && (r.g.registered <==> w.g.registered || Registers(events))
    && (r.g.watch.fatal <==> w.g.watch.fatal || Fills(events))
    && (r.g.watch.forwarded <==> w.g.watch.forwarded || Fills(events) || Noticed(events))
    && r.g.publicURL == (if Among(Publish, events) then r.url else w.g.publicURL)
    && r.g.active == w.g.active && r.g.built == w.g.built
  }

  lemma {:induction false} OneMade(d: Deps, w: Work, c: Call, env: Env)
    requires !w.g.watch.fatal
    ensures Marked([Made(c, w.clock, env)], w, Attempt(d, w, c, env))
  {
    hide Attempt;
    OneCall(d, w, c, env);
    assert [Made(c, w.clock, env)][0] == Made(c, w.clock, env);
  }

  lemma {:induction false} MarkedOn(e: Event, later: seq<Event>, w: Work, n: Work, r: Work)
    requires Marked([e], w, n) && Marked(later, n, r) && e.call != Publish
    ensures Marked([e] + later, w, r)
  {
    assert forall x :: x in [e] + later <==> x == e || x in later;
    assert w.g.log + ([e] + later) == w.g.log + [e] + later;
    assert [e][0] == e;
  }

  lemma NothingMade(w: Work)
    ensures Marked([], w, w)
  {
  }

  lemma Over(d: Deps, p: Plan, w: Work, env: Env)
    requires p.Done? || w.err != []
    ensures Perform(d, p, w, env) == w && (p.Done? ==> Calls(p) == [])
  {
  }

  /** A sequence makes its calls in order up to the first that does not pass. */
  lemma {:induction false} PerformExactly(d: Deps, p: Plan, w: Work, env: Env)
    requires w.err == [] && !w.g.watch.fatal && PublishesLast(p)
    ensures var r := Perform(d, p, w, env); var calls := Calls(p);
            && Marked(Events(calls, w.clock, env), w, r) && r.err == FirstFailure(calls, w.clock, env)
            && r.url == UrlAfter(calls, w.clock, env, w.url)
    decreases p
  {
    hide Attempt, Passes, Perform, Marked, Made;
    NothingMade(w);
    if p.Done? {
      Over(d, p, w, env);
    } else {
      var n, c := Attempt(d, w, p.call, env), p.call;
      OneCall(d, w, c, env);
      OneMade(d, w, c, env);
      Unfold(d, p, w, env);
      assert Calls(p)[0] == c && Calls(p)[1..] == Calls(p.rest);
      if n.err != [] || p.rest.Done? {
        Over(d, p.rest, n, env);
        assert [Made(c, w.clock, env)] + [] == [Made(c, w.clock, env)];
      } else {
        PerformExactly(d, p.rest, n, env);
        MarkedOn(Made(c, w.clock, env), Events(Calls(p.rest), n.clock, env), w, n, Perform(d, p.rest, n, env))
          by { assert Made(c, w.clock, env).call == c by { CallOf(c, w.clock, env); } }
      }
    }
  }

  lemma CallOf(c: Call, at: nat, env: Env)
    ensures Made(c, at, env).call == c
  {
  }

  lemma ConstructionPublishesNothing(d: Deps)
    ensures PublishesLast(ConstructionPlan(d)) && Publish !in ConstructionCalls(d) && StartEdge !in ConstructionCalls(d)
    ensures StartHeartbeatLoop !in ConstructionCalls(d) && Register !in ConstructionCalls(d)
  {
  }

  lemma LastPublishes(g: Gen)
    ensures PublishesLast(WorkersPlan(g))
  {
  }

  lemma LaterPublishesLast(d: Deps, g: Gen)
    ensures PublishesLast(RegistrationPlan(d, g)) && PublishesLast(EndpointPlan(d, g))
  {
    hide WorkersPlan;
    LastPublishes(g);
  }

  lemma CapabilityPublishesLast(d: Deps, g: Gen)
    ensures PublishesLast(CapabilityPlan(d, g))
  {
    hide EndpointPlan;
    LaterPublishesLast(d, g);
  }

  lemma EdgePublishesLast(d: Deps, g: Gen)
    ensures PublishesLast(EdgePlan(d, g))
  {
    hide CapabilityPlan;
    CapabilityPublishesLast(d, g);
  }

  lemma ActivationPublishesLast(d: Deps, g: Gen)
    ensures PublishesLast(ActivationPlan(d, g))
  {
    hide EdgePlan;
    EdgePublishesLast(d, g);
  }

  lemma {:induction false} NotAmong(calls: seq<Call>, at: nat, env: Env, c: Call)
    requires c !in calls
    ensures !Among(c, Events(calls, at, env)) && (c == Register ==> !Registers(Events(calls, at, env)))
    ensures c == StartEdge ==> forall url :: UrlAfter(calls, at, env, url) == url
  {
    hide Passes;
    if calls != [] {
      NotAmong(calls[1..], at + 1, env, c);
      assert calls[0] in calls;
    }
  }

  /** Construction: nothing but the constructors' calls; the configuration is the one asked for, and neither
      a URL nor a registration is there yet, unless there is nothing to register with. */
  lemma {:induction false} ConstructionExactly(d: Deps, cfg: Config, clock: nat, env: Env)
    ensures var r := Construct(d, cfg, clock, env); var calls := ConstructionCalls(d);
            && r.g.log == Events(calls, clock, env) && r.err == FirstFailure(calls, clock, env)
            && r.clock == clock + |r.g.log| && r.g.active == cfg && r.g.publicURL == ""
            && !r.g.executing && !r.g.heartbeat && !r.g.built && (r.g.registered <==> !d.register)
  {
    hide ConstructionPlan, ConstructionCalls, Events, FirstFailure, UrlAfter, Perform;
    var w := Work(Fresh(d, cfg), clock, "", []);
    ConstructionCallsExactly(d);
    ConstructionPublishesNothing(d);
    PerformExactly(d, ConstructionPlan(d), w, env);
    NotAmong(ConstructionCalls(d), clock, env, Publish);
    NotAmong(ConstructionCalls(d), clock, env, StartHeartbeatLoop);
    NotAmong(ConstructionCalls(d), clock, env, Register);
    assert [] + Events(ConstructionCalls(d), clock, env) == Events(ConstructionCalls(d), clock, env);
  }

  /** Activation: it succeeds exactly if every call passes; then the generation executes at the URL with which the
      edge answered its start, the fourth call, or without one. */
  lemma {:induction false} ActivationExactly(d: Deps, g: Gen, clock: nat, env: Env)
    requires !g.watch.fatal && !g.executing
    ensures var r := Activate(d, g, clock, env); var calls := ActivationCalls(d, g.has);
            && r.g.log == g.log + Events(calls, clock, env) && r.clock == clock + |Events(calls, clock, env)|
            && r.err == FirstFailure(calls, clock, env) && r.g.active == g.active
            && (r.err == [] <==> r.g.executing)
            && (r.err == [] ==> r.g.publicURL == if g.has.edge then env(clock + 3).text else "")
            && (r.err != [] ==> r.g.publicURL == g.publicURL)
            && (r.g.registered <==> g.registered || Registers(Events(calls, clock, env)))
            && (r.g.heartbeat <==> g.heartbeat || Among(StartHeartbeatLoop, Events(calls, clock, env)))
            && (r.g.watch.fatal <==> Fills(Events(calls, clock, env)))
            && (r.g.watch.forwarded
                <==> g.watch.forwarded || Fills(Events(calls, clock, env)) || Noticed(Events(calls, clock, env)))
  {
    hide ActivationPlan, ActivationCalls, Events, FirstFailure, UrlAfter, Perform, Among, Registers, Fills, Noticed;
    var calls := ActivationCalls(d, g.has);
    ActivationCallsExactly(d, g);
    ActivationPublishesLast(d, g);
    PerformExactly(d, ActivationPlan(d, g), Work(g, clock, "", []), env);
    CallsEndByPublishing(d, g.has);
    PublishedIffPassed(calls, clock, env);
    if FirstFailure(calls, clock, env) == [] { UrlOfActivation(d, g.has, clock, env); }
  }

  lemma CallsEndByPublishing(d: Deps, has: Parts)
    ensures var calls := ActivationCalls(d, has); var n := |calls|;
            n > 0 && calls[n - 1] == Publish && Publish !in calls[..n - 1]
  {
    hide LaterCalls;
    LaterCallsAreLate(d, has);
    var before := [StartApi, PollFailures] + If(has.edge, [LocalOrigin, StartEdge, PollFailures]) + LaterCalls(d, has);
    assert ActivationCalls(d, has) == before + [Publish];
  }

  lemma LaterCallsAreLate(d: Deps, has: Parts)
    ensures Publish !in LaterCalls(d, has) && StartEdge !in LaterCalls(d, has)
  {
  }

  lemma {:induction false} PublishedIffPassed(calls: seq<Call>, at: nat, env: Env)
    requires calls != [] && calls[|calls| - 1] == Publish && Publish !in calls[..|calls| - 1]
    ensures Among(Publish, Events(calls, at, env)) <==> FirstFailure(calls, at, env) == []
  {
    hide Passes;
    var events := Events(calls, at, env);
    if |calls| == 1 {
      assert calls == [Publish] && Passes(Publish, env(at)) by { PublishPasses(env(at)); }
      assert events[0] in events && calls[1..] == [];
    } else {
      assert calls[0] in calls[..|calls| - 1];
      assert calls[1..][..|calls| - 2] == calls[..|calls| - 1][1..];
      PublishedIffPassed(calls[1..], at + 1, env);
      if Passes(calls[0], env(at)) {
        assert forall e :: e in events <==> e == Made(calls[0], at, env) || e in Events(calls[1..], at + 1, env);
      }
    }
  }

  lemma PublishPasses(a: Answer)
    ensures Passes(Publish, a)
  {
  }

  lemma {:induction false} UrlOfActivation(d: Deps, has: Parts, clock: nat, env: Env)
    requires FirstFailure(ActivationCalls(d, has), clock, env) == []
    ensures UrlAfter(ActivationCalls(d, has), clock, env, "") == if has.edge then env(clock + 3).text else ""
  {
    hide LaterCalls;
    LaterCallsAreLate(d, has);
    var tail := LaterCalls(d, has) + [Publish];
    if has.edge {
      var calls := [StartApi] + ([PollFailures] + ([LocalOrigin] + ([StartEdge] + ([PollFailures] + tail))));
      assert ActivationCalls(d, has) == calls;
      UrlAfterEdge([PollFailures] + tail, clock, env);
    } else {
      assert StartEdge !in ActivationCalls(d, has);
      NotAmong(ActivationCalls(d, has), clock, env, StartEdge);
    }
  }

  lemma {:induction false} UrlAfterEdge(tail: seq<Call>, clock: nat, env: Env)
    requires StartEdge !in tail
    ensures var calls := [StartApi] + ([PollFailures] + ([LocalOrigin] + ([StartEdge] + tail)));
            FirstFailure(calls, clock, env) == [] ==> UrlAfter(calls, clock, env, "") == env(clock + 3).text
  {
    hide Passes, UrlAfter, FirstFailure;
    var three := [StartEdge] + tail;
    OneOn(StartEdge, tail, clock + 3, env, "");
    OneOn(LocalOrigin, three, clock + 2, env, "");
    OneOn(PollFailures, [LocalOrigin] + three, clock + 1, env, "");
    OneOn(StartApi, [PollFailures] + ([LocalOrigin] + three), clock, env, "");
    NotAmong(tail, clock + 4, env, StartEdge);
    assert Passes(StartEdge, env(clock + 3)) ==> env(clock + 3).ok by { EdgePasses(env(clock + 3)); }
  }

  lemma OneOn(c: Call, rest: seq<Call>, at: nat, env: Env, url: string)
    ensures FirstFailure([c] + rest, at, env) == [] ==> Passes(c, env(at)) && FirstFailure(rest, at + 1, env) == []
    ensures FirstFailure([c] + rest, at, env) == [] ==>
        UrlAfter([c] + rest, at, env, url) == UrlAfter(rest, at + 1, env,
                                                       if c == StartEdge && env(at).ok then env(at).text else url)
  {
    hide Passes;
    assert ([c] + rest)[1..] == rest;
  }

  lemma EdgePasses(a: Answer)
    ensures Passes(StartEdge, a) ==> a.ok
  {
  }

  // ---------------------------------------------------------------- teardown

  /** One call, if it is wanted. */
  function Once(wanted: bool, c: Call, at: nat, env: Env): seq<Event> {
    if wanted then [Event(c, env(at).ok, env(at).effect, at)] else []
  }

  /** Everything is paused first, then every resource is released, whatever fails before; only an edge that
      could not be stopped is not closed. */
  function ReleaseEvents(g: Gen, at: nat, env: Env): seq<Event> {
    var stops := if g.has.workers then [Event(StopWorkers, true, false, at)] else [];
    var api := Once(g.has.api && !g.closed.api, ShutdownApi, at + |stops|, env);
    var n := at + |stops| + |api|;
    var edge := EdgeEvents(g.has.edge && !g.closed.edge, n, env);
    var waits := Once(g.has.workers, WaitWorkers, n + |edge|, env);
    stops + api + edge + waits
    + Once(g.has.observability && !g.closed.observability, ShutdownObservability, n + |edge| + |waits|, env)
  }

  function EdgeEvents(open: bool, at: nat, env: Env): seq<Event> {
    Once(open, StopEdge, at, env) + Once(open && env(at).ok, CloseEdge, at + 1, env)
  }

  function TeardownEvents(g: Gen, at: nat, pause: bool, env: Env): seq<Event> {
    var pauses := Once(pause && g.has.lifecycle && g.registered, Pause, at, env);
    pauses + ReleaseEvents(g, at + |pauses|, env)
  }

  /** The causes of the calls that failed, in order. */
  function Failures(events: seq<Event>): Error {
    if events == [] then []
    else (if events[0].ok then [] else [CallFailed(events[0].call)]) + Failures(events[1..])
  }

  predicate Succeeded(c: Call, events: seq<Event>) { exists e :: e in events && e.call == c && e.ok }

  /** Each flag says whether the resource was released before or is now. */
  function ClosedAfter(g: Gen, events: seq<Event>): Flags {
    Flags(g.closed.api || Succeeded(ShutdownApi, events), g.closed.edge || Succeeded(CloseEdge, events),
          g.closed.observability || Succeeded(ShutdownObservability, events),
          if g.has.workers then Succeeded(WaitWorkers, events) else g.closed.workers, true)
  }

  lemma FailuresOn(a: seq<Event>, b: seq<Event>)
    ensures Failures(a + b) == Failures(a) + Failures(b)
  {
    if a != [] {
      assert (a + b)[1..] == a[1..] + b;
      FailuresOn(a[1..], b);
    } else {
      assert a + b == b;
    }
  }

  /** One step of a teardown: it adds these calls, and its local error is theirs. */
  ghost predicate Adds(t: Torn, u: Torn, events: seq<Event>) {
    && u.g.log == t.g.log + events && u.clock == t.clock + |events| && u.remote == t.remote
    && u.local == t.local + Failures(events)
    && u.g == t.g.(log := u.g.log, closed := u.g.closed, publicURL := u.g.publicURL)
  }

  lemma {:induction false} StopsExactly(t: Torn, env: Env)
    ensures var u := CancelWorkers(t, env); var events := if t.g.has.workers
              then [Event(StopWorkers, true, false, t.clock)] else [];
            && Adds(t, u, events) && u.g.publicURL == t.g.publicURL
            && u.g.closed == (if t.g.has.workers then t.g.closed.(workers := false) else t.g.closed)
  {
  }

  lemma {:induction false} ApiExactly(t: Torn, env: Env)
    ensures var u := ReleaseApi(t, env); var events := Once(t.g.has.api && !t.g.closed.api, ShutdownApi, t.clock, env);
            && Adds(t, u, events) && u.g.publicURL == t.g.publicURL
            && u.g.closed == t.g.closed.(api := t.g.closed.api || Succeeded(ShutdownApi, events))
  {
  }

  lemma {:induction false} HaltExactly(t: Torn, env: Env)
    ensures var u := HaltEdge(t, env); var events := Once(true, StopEdge, t.clock, env);
            && Adds(t, u, events) && u.g.publicURL == (if env(t.clock).ok then "" else t.g.publicURL)
            && u.g.closed == t.g.closed && (u.local == t.local <==> env(t.clock).ok)
  {
  }

  lemma {:induction false} DiscardExactly(t: Torn, env: Env)
    ensures var u := DiscardEdge(t, env); var events := Once(true, CloseEdge, t.clock, env);
            && Adds(t, u, events) && u.g.publicURL == t.g.publicURL
            && u.g.closed == t.g.closed.(edge := env(t.clock).ok)
  {
  }

  lemma EdgeSucceeds(open: bool, at: nat, env: Env)
    ensures var events := EdgeEvents(open, at, env);
            && (Succeeded(StopEdge, events) <==> open && env(at).ok)
            && (Succeeded(CloseEdge, events) <==> open && env(at).ok && env(at + 1).ok)
  {
  }

  lemma {:induction false} EdgeExactly(t: Torn, env: Env)
    ensures var u := ReleaseEdge(t, env); var events := EdgeEvents(t.g.has.edge && !t.g.closed.edge, t.clock, env);
            && Adds(t, u, events) && u.g.publicURL == (if Succeeded(StopEdge, events) then "" else t.g.publicURL)
            && u.g.closed == t.g.closed.(edge := t.g.closed.edge || Succeeded(CloseEdge, events))
  {
    hide HaltEdge, DiscardEdge, Adds, Succeeded;
    var open := t.g.has.edge && !t.g.closed.edge;
    EdgeSucceeds(open, t.clock, env);
    if open {
      var halted := HaltEdge(t, env);
      HaltExactly(t, env);
      assert halted.clock == t.clock + 1 by { AddedOne(t, halted, StopEdge, env); }
      if env(t.clock).ok {
        DiscardExactly(halted, env);
        AddsOn(t, halted, DiscardEdge(halted, env), Once(true, StopEdge, t.clock, env),
               Once(true, CloseEdge, t.clock + 1, env));
      } else {
        assert Once(true, StopEdge, t.clock, env) + [] == Once(true, StopEdge, t.clock, env);
      }
    } else {
      AddsNothing(t);
      assert EdgeEvents(open, t.clock, env) == [];
    }
  }

  lemma AddedOne(t: Torn, u: Torn, c: Call, env: Env)
    requires Adds(t, u, Once(true, c, t.clock, env))
    ensures u.clock == t.clock + 1
  {
  }

  lemma AddsNothing(t: Torn)
    ensures Adds(t, t, [])
  {
  }

  lemma {:induction false} WaitsExactly(t: Torn, env: Env)
    requires t.g.has.workers ==> !t.g.closed.workers
    ensures var u := AwaitWorkers(t, env); var events := Once(t.g.has.workers, WaitWorkers, t.clock, env);
            && Adds(t, u, events) && u.g.publicURL == t.g.publicURL
            && u.g.closed == t.g.closed.(workers := if t.g.has.workers then Succeeded(WaitWorkers, events)
                                         else t.g.closed.workers)
  {
  }

  lemma {:induction false} ObservabilityExactly(t: Torn, env: Env)
    ensures var u := ReleaseObservability(t, env);
            var events := Once(t.g.has.observability && !t.g.closed.observability, ShutdownObservability, t.clock, env);
            && Adds(t, u, events) && u.g.publicURL == t.g.publicURL
            && u.g.closed == t.g.closed.(observability := t.g.closed.observability
                                         || Succeeded(ShutdownObservability, events))
  {
  }

  lemma {:induction false} AddsOn(t: Torn, u: Torn, v: Torn, a: seq<Event>, b: seq<Event>)
    requires Adds(t, u, a) && Adds(u, v, b)
    ensures Adds(t, v, a + b)
  {
    hide Failures;
    FailuresOn(a, b);
    assert t.g.log + (a + b) == t.g.log + a + b;
    assert t.local + (Failures(a) + Failures(b)) == t.local + Failures(a) + Failures(b);
  }

  lemma {:induction false} SucceededOn(c: Call, a: seq<Event>, b: seq<Event>)
    ensures Succeeded(c, a + b) <==> Succeeded(c, a) || Succeeded(c, b)
  {
    if e :| e in a && e.call == c && e.ok { assert e in a + b; }
    if e :| e in b && e.call == c && e.ok { assert e in a + b; }
  }

  lemma FiveParts(c: Call, e1: seq<Event>, e2: seq<Event>, e3: seq<Event>, e4: seq<Event>, e5: seq<Event>)
    ensures Succeeded(c, e1 + e2 + e3 + e4 + e5)
            <==> Succeeded(c, e1) || Succeeded(c, e2) || Succeeded(c, e3) || Succeeded(c, e4) || Succeeded(c, e5)
  {
    hide Succeeded;
    SucceededOn(c, e1, e2);
    SucceededOn(c, e1 + e2, e3);
    SucceededOn(c, e1 + e2 + e3, e4);
    SucceededOn(c, e1 + e2 + e3 + e4, e5);
  }

  lemma NotThere(c: Call, events: seq<Event>)
    requires forall e :: e in events ==> e.call != c
    ensures !Succeeded(c, events)
  {
  }

  lemma AskedOnly(wanted: bool, c: Call, at: nat, env: Env)
    ensures forall e :: e in Once(wanted, c, at, env) ==> e.call == c
  {
  }

  lemma EdgeOnly(open: bool, at: nat, env: Env)
    ensures forall e :: e in EdgeEvents(open, at, env) ==> e.call == StopEdge || e.call == CloseEdge
  {
  }

  function StopsOf(g: Gen, at: nat): seq<Event> { if g.has.workers then [Event(StopWorkers, true, false, at)] else [] }

  lemma StopsOnly(g: Gen, at: nat)
    ensures forall e :: e in StopsOf(g, at) ==> e.call == StopWorkers
  {
  }

  /** Each part holds only its own calls. */
  ghost predicate Parted(e1: seq<Event>, e2: seq<Event>, e3: seq<Event>, e4: seq<Event>, e5: seq<Event>) {
    && (forall e :: e in e1 ==> e.call == StopWorkers) && (forall e :: e in e2 ==> e.call == ShutdownApi)
    && (forall e :: e in e3 ==> e.call == StopEdge || e.call == CloseEdge)
    && (forall e :: e in e4 ==> e.call == WaitWorkers) && (forall e :: e in e5 ==> e.call == ShutdownObservability)
  }

  lemma {:induction false} PartsSucceed(e1: seq<Event>, e2: seq<Event>, e3: seq<Event>, e4: seq<Event>, e5: seq<Event>)
    requires Parted(e1, e2, e3, e4, e5)
    ensures var all := e1 + e2 + e3 + e4 + e5;
            && (Succeeded(ShutdownApi, all) <==> Succeeded(ShutdownApi, e2))
            && (Succeeded(StopEdge, all) <==> Succeeded(StopEdge, e3))
                && (Succeeded(CloseEdge, all) <==> Succeeded(CloseEdge, e3))
            && (Succeeded(WaitWorkers, all) <==> Succeeded(WaitWorkers, e4))
            && (Succeeded(ShutdownObservability, all) <==> Succeeded(ShutdownObservability, e5))
  {
    hide Succeeded;
    forall c | c in {ShutdownApi, StopEdge, CloseEdge, WaitWorkers, ShutdownObservability}
      ensures var all := e1 + e2 + e3 + e4 + e5;
              && (c == ShutdownApi ==> (Succeeded(c, all) <==> Succeeded(c, e2)))
              && (c == StopEdge || c == CloseEdge ==> (Succeeded(c, all) <==> Succeeded(c, e3)))
              && (c == WaitWorkers ==> (Succeeded(c, all) <==> Succeeded(c, e4)))
              && (c == ShutdownObservability ==> (Succeeded(c, all) <==> Succeeded(c, e5)))
    {
      FiveParts(c, e1, e2, e3, e4, e5);
      NotThere(c, e1);
      if c != ShutdownApi { NotThere(c, e2); }
      if c != StopEdge && c != CloseEdge { NotThere(c, e3); }
      if c != WaitWorkers { NotThere(c, e4); }
      if c != ShutdownObservability { NotThere(c, e5); }
    }
  }

  /** The parts of a release: its events, and where it stands after each. */
  datatype Parts5 = Parts5(e1: seq<Event>, e2: seq<Event>, e3: seq<Event>, e4: seq<Event>, e5: seq<Event>)

  function PartsOf(g: Gen, at: nat, env: Env): Parts5 {
    var e1 := StopsOf(g, at);
    var e2 := Once(g.has.api && !g.closed.api, ShutdownApi, at + |e1|, env);
    var e3 := EdgeEvents(g.has.edge && !g.closed.edge, at + |e1| + |e2|, env);
    var e4 := Once(g.has.workers, WaitWorkers, at + |e1| + |e2| + |e3|, env);
    var e5 := Once(g.has.observability && !g.closed.observability, ShutdownObservability,
                   at + |e1| + |e2| + |e3| + |e4|, env);
    Parts5(e1, e2, e3, e4, e5)
  }

  lemma PartsTogether(g: Gen, at: nat, env: Env)
    ensures var e := PartsOf(g, at, env); ReleaseEvents(g, at, env) == e.e1 + e.e2 + e.e3 + e.e4 + e.e5
  {
    hide Once, EdgeEvents;
    StopsAre(g, at);
  }

  /** One part of a release: the events it adds, the flags and the URL it leaves. */
  ghost predicate Part(t: Torn, u: Torn, events: seq<Event>, closed: Flags, url: string) {
    Adds(t, u, events) && u.g.closed == closed && u.g.publicURL == url
  }

  lemma PartKeeps(t: Torn, u: Torn, events: seq<Event>, closed: Flags, url: string)
    requires Part(t, u, events, closed, url)
    ensures Adds(t, u, events) && u.clock == t.clock + |events| && u.g.has == t.g.has && u.g.closed == closed
    ensures u.g.publicURL == url
  {
  }

  function AfterStops(c: Flags, has: Parts): Flags { if has.workers then c.(workers := false) else c }
  function AfterApi(c: Flags, e: Parts5): Flags { c.(api := c.api || Succeeded(ShutdownApi, e.e2)) }
  function AfterEdge(c: Flags, e: Parts5): Flags { c.(edge := c.edge || Succeeded(CloseEdge, e.e3)) }
  function AfterWaits(c: Flags, has: Parts, e: Parts5): Flags {
    c.(workers := if has.workers then Succeeded(WaitWorkers, e.e4) else c.workers)
  }
  function AfterObservability(c: Flags, e: Parts5): Flags {
    c.(observability := c.observability || Succeeded(ShutdownObservability, e.e5))
  }

  lemma {:induction false} StopsPart(t: Torn, env: Env)
    ensures Part(t, CancelWorkers(t, env), StopsOf(t.g, t.clock), AfterStops(t.g.closed, t.g.has), t.g.publicURL)
  {
    StopsExactly(t, env);
  }

  lemma {:induction false} ApiPart(t: Torn, e: Parts5, env: Env)
    requires e.e2 == Once(t.g.has.api && !t.g.closed.api, ShutdownApi, t.clock, env)
    ensures Part(t, ReleaseApi(t, env), e.e2, AfterApi(t.g.closed, e), t.g.publicURL)
  {
    hide ReleaseApi, Once, Adds, Succeeded;
    ApiExactly(t, env);
  }

  lemma {:induction false} EdgePart(t: Torn, e: Parts5, env: Env)
    requires e.e3 == EdgeEvents(t.g.has.edge && !t.g.closed.edge, t.clock, env)
    ensures Part(t, ReleaseEdge(t, env), e.e3, AfterEdge(t.g.closed, e),
                 if Succeeded(StopEdge, e.e3) then "" else t.g.publicURL)
  {
    hide ReleaseEdge, EdgeEvents, Adds, Succeeded;
    EdgeExactly(t, env);
  }

  lemma {:induction false} WaitsPart(t: Torn, e: Parts5, env: Env)
    requires e.e4 == Once(t.g.has.workers, WaitWorkers, t.clock, env) && (t.g.has.workers ==> !t.g.closed.workers)
    ensures Part(t, AwaitWorkers(t, env), e.e4, AfterWaits(t.g.closed, t.g.has, e), t.g.publicURL)
  {
    hide AwaitWorkers, Once, Adds, Succeeded;
    WaitsExactly(t, env);
  }

  lemma {:induction false} ObservabilityPart(t: Torn, e: Parts5, env: Env)
    requires e.e5 == Once(t.g.has.observability && !t.g.closed.observability, ShutdownObservability, t.clock, env)
    ensures Part(t, ReleaseObservability(t, env), e.e5, AfterObservability(t.g.closed, e), t.g.publicURL)
  {
    hide ReleaseObservability, Once, Adds, Succeeded;
    ObservabilityExactly(t, env);
  }

  /** The flags after all five parts. */
  function AfterAll(c: Flags, has: Parts, e: Parts5): Flags {
    AfterObservability(AfterWaits(AfterEdge(AfterApi(AfterStops(c, has), e), e), has, e), e)
  }

  lemma PartsAre(g: Gen, at: nat, env: Env)
    ensures var e := PartsOf(g, at, env);
            && e.e1 == StopsOf(g, at)
            && e.e2 == Once(g.has.api && !g.closed.api, ShutdownApi, at + |e.e1|, env)
            && e.e3 == EdgeEvents(g.has.edge && !g.closed.edge, at + |e.e1| + |e.e2|, env)
            && e.e4 == Once(g.has.workers, WaitWorkers, at + |e.e1| + |e.e2| + |e.e3|, env)
            && e.e5 == Once(g.has.observability && !g.closed.observability, ShutdownObservability,
                             at + |e.e1| + |e.e2| + |e.e3| + |e.e4|, env)
  {
    hide Once, EdgeEvents, StopsOf;
  }

  lemma FlagsStay(c: Flags, has: Parts, e: Parts5)
    ensures AfterStops(c, has).api == c.api && AfterApi(AfterStops(c, has), e).edge == c.edge
    ensures var d := AfterEdge(AfterApi(AfterStops(c, has), e), e);
            d.observability == c.observability && (has.workers ==> !d.workers)
            && AfterWaits(d, has, e).observability == c.observability
  {
    hide Succeeded;
  }

  /** Two parts make one. */
  lemma {:induction false} PartOn(t: Torn, u: Torn, v: Torn, a: seq<Event>, b: seq<Event>,
                                  closed: Flags, between: string, after: Flags, url: string)
    requires Part(t, u, a, closed, between) && Part(u, v, b, after, url)
    ensures Part(t, v, a + b, after, url) && v.clock == t.clock + |a| + |b| && v.g.has == t.g.has
  {
    hide Adds;
    AddsOn(t, u, v, a, b);
    AddsHere(t, u, a);
    AddsHere(u, v, b);
  }

  lemma AddsHere(t: Torn, u: Torn, events: seq<Event>)
    requires Adds(t, u, events)
    ensures u.clock == t.clock + |events| && u.g.has == t.g.has
  {
  }

  lemma {:induction false} FirstParts(t: Torn, e: Parts5, env: Env)
    requires e == PartsOf(t.g, t.clock, env)
    ensures var u := ReleaseEdge(ReleaseApi(CancelWorkers(t, env), env), env);
            Part(t, u, e.e1 + e.e2 + e.e3, AfterEdge(AfterApi(AfterStops(t.g.closed, t.g.has), e), e),
                 if Succeeded(StopEdge, e.e3) then "" else t.g.publicURL)
  {
    hide CancelWorkers, ReleaseApi, ReleaseEdge, Adds, Once, EdgeEvents, Succeeded, StopsOf, Part, PartsOf;
    hide AfterStops, AfterApi, AfterEdge;
    var url, stopped := t.g.publicURL, AfterStops(t.g.closed, t.g.has);
    PartsAre(t.g, t.clock, env);
    FlagsStay(t.g.closed, t.g.has, e);
    var t1 := CancelWorkers(t, env);
    StopsPart(t, env);
    PartKeeps(t, t1, e.e1, stopped, url);
    var t2 := ReleaseApi(t1, env);
    ApiPart(t1, e, env);
    PartOn(t, t1, t2, e.e1, e.e2, stopped, url, AfterApi(stopped, e), url);
    PartKeeps(t, t2, e.e1 + e.e2, AfterApi(stopped, e), url);
    EdgePart(t2, e, env);
    PartOn(t, t2, ReleaseEdge(t2, env), e.e1 + e.e2, e.e3, AfterApi(stopped, e), url,
           AfterEdge(AfterApi(stopped, e), e),
           if Succeeded(StopEdge, e.e3) then "" else url);
  }

  lemma {:induction false} ReleasedInParts(t: Torn, env: Env)
    ensures var e := PartsOf(t.g, t.clock, env);
            Part(t, Release(t, env), e.e1 + e.e2 + e.e3 + e.e4 + e.e5, AfterAll(t.g.closed, t.g.has, e),
                 if Succeeded(StopEdge, e.e3) then "" else t.g.publicURL)
  {
    hide CancelWorkers, ReleaseApi, ReleaseEdge, AwaitWorkers, ReleaseObservability, Adds, Once, EdgeEvents;
    hide Succeeded, StopsOf, Part, PartsOf, AfterStops, AfterApi, AfterEdge, AfterWaits, AfterObservability;
    var e := PartsOf(t.g, t.clock, env);
    PartsAre(t.g, t.clock, env);
    FlagsStay(t.g.closed, t.g.has, e);
    var url := if Succeeded(StopEdge, e.e3) then "" else t.g.publicURL;
    var t3 := ReleaseEdge(ReleaseApi(CancelWorkers(t, env), env), env);
    var first := AfterEdge(AfterApi(AfterStops(t.g.closed, t.g.has), e), e);
    FirstParts(t, e, env);
    PartKeeps(t, t3, e.e1 + e.e2 + e.e3, first, url);
    var t4 := AwaitWorkers(t3, env);
    WaitsPart(t3, e, env);
    PartOn(t, t3, t4, e.e1 + e.e2 + e.e3, e.e4, first, url, AfterWaits(first, t.g.has, e), url);
    PartKeeps(t, t4, e.e1 + e.e2 + e.e3 + e.e4, AfterWaits(first, t.g.has, e), url);
    ObservabilityPart(t4, e, env);
    PartOn(t, t4, Release(t, env), e.e1 + e.e2 + e.e3 + e.e4, e.e5, AfterWaits(first, t.g.has, e), url,
           AfterAll(t.g.closed, t.g.has, e), url);
  }

  /** What was released, and what became of the flags. */
  lemma {:induction false} ReleaseExactly(t: Torn, env: Env)
    ensures var u := Release(t, env); var events := ReleaseEvents(t.g, t.clock, env);
            && Adds(t, u, events) && u.g.publicURL == (if Succeeded(StopEdge, events) then "" else t.g.publicURL)
            && u.g.closed == ClosedAfter(t.g, events).(context := t.g.closed.context)
  {
    hide Release, ReleaseEvents, Adds, Succeeded, PartsOf;
    var e := PartsOf(t.g, t.clock, env);
    ReleasedInParts(t, env);
    PartsTogether(t.g, t.clock, env);
    assert Parted(e.e1, e.e2, e.e3, e.e4, e.e5) by { PartedHere(t.g, t.clock, env); }
    PartsSucceed(e.e1, e.e2, e.e3, e.e4, e.e5);
  }

  lemma StopsAre(g: Gen, at: nat)
    ensures StopsOf(g, at) == if g.has.workers then [Event(StopWorkers, true, false, at)] else []
  {
  }

  lemma PartedHere(g: Gen, at: nat, env: Env)
    ensures var e := PartsOf(g, at, env); Parted(e.e1, e.e2, e.e3, e.e4, e.e5)
  {
    hide Once, EdgeEvents, StopsOf, PartsOf;
    var e := PartsOf(g, at, env);
    PartsAre(g, at, env);
    StopsOnly(g, at);
    AskedOnly(g.has.api && !g.closed.api, ShutdownApi, at + |e.e1|, env);
    EdgeOnly(g.has.edge && !g.closed.edge, at + |e.e1| + |e.e2|, env);
    AskedOnly(g.has.workers, WaitWorkers, at + |e.e1| + |e.e2| + |e.e3|, env);
    AskedOnly(g.has.observability && !g.closed.observability, ShutdownObservability,
              at + |e.e1| + |e.e2| + |e.e3| + |e.e4|, env);
  }

  /** Teardown: the remote error is that of the pause, the local one that of the releases, in order; the URL goes
      with the edge that was stopped, and in any case the generation no longer executes. */
  lemma {:induction false} TeardownExactly(g: Gen, clock: nat, pause: bool, env: Env)
    ensures var t := Teardown(g, clock, pause, env); var events := TeardownEvents(g, clock, pause, env);
            && t.clock == clock + |events| && t.remote + t.local == Failures(events)
            && t.remote == Failures(Once(pause && g.has.lifecycle && g.registered, Pause, clock, env))
            && t.g == g.(executing := false, heartbeat := false, log := g.log + events,
                         closed := ClosedAfter(g, events),
                         publicURL := if Succeeded(StopEdge, events) then "" else g.publicURL)
  {
    hide Adds, ReleaseEvents, Succeeded, Release, Failures, Once, PauseRemote, Teardown, ClosedAfter;
    var wanted := pause && g.has.lifecycle && g.registered;
    var pauses := Once(wanted, Pause, clock, env);
    var t0 := Torn(g.(heartbeat := false), clock, [], []);
    var t1 := PauseRemote(t0, pause, env);
    PausesExactly(t0, pause, env);
    var t2, more := Release(t1, env), ReleaseEvents(t1.g, t1.clock, env);
    ReleaseExactly(t1, env);
    PartsAlike(t1.g, g, t1.clock, env);
    Added(t1, t2, more);
    FailuresOn(pauses, more);
    PauseClosesNothing(wanted, clock, more, env);
    SameFlags(t1.g, g, more, pauses + more);
    assert g.log + (pauses + more) == g.log + pauses + more;
    ReleaseIs(g, clock, pause, env);
  }

  lemma SameFlags(g: Gen, h: Gen, a: seq<Event>, b: seq<Event>)
    requires g.has == h.has && g.closed == h.closed && forall c :: c != Pause ==> (Succeeded(c, b) <==> Succeeded(c, a))
    ensures ClosedAfter(g, a) == ClosedAfter(h, b)
    ensures ClosedAfter(g, a).context
  {
    hide Succeeded;
  }

  lemma {:induction false} PauseClosesNothing(wanted: bool, at: nat, more: seq<Event>, env: Env)
    ensures forall c :: c != Pause ==> (Succeeded(c, Once(wanted, Pause, at, env) + more) <==> Succeeded(c, more))
  {
    hide Succeeded, Once;
    forall c | c != Pause ensures Succeeded(c, Once(wanted, Pause, at, env) + more) <==> Succeeded(c, more) {
      SucceededOn(c, Once(wanted, Pause, at, env), more);
      AskedOnly(wanted, Pause, at, env);
      NotThere(c, Once(wanted, Pause, at, env));
    }
  }

  lemma PausesExactly(t: Torn, pause: bool, env: Env)
    requires t.remote == [] && t.local == []
    ensures var u := PauseRemote(t, pause, env); var events := Once(pause && t.g.has.lifecycle && t.g.registered, Pause,
                                                                    t.clock, env);
            && u.g == t.g.(log := t.g.log + events) && u.clock == t.clock + |events|
            && u.remote == Failures(events) && u.local == []
  {
  }

  lemma PartsAlike(g: Gen, h: Gen, at: nat, env: Env)
    requires g.has == h.has && g.closed == h.closed
    ensures ReleaseEvents(g, at, env) == ReleaseEvents(h, at, env)
  {
  }

  lemma Added(t: Torn, u: Torn, events: seq<Event>)
    requires Adds(t, u, events)
    ensures u.g.log == t.g.log + events && u.clock == t.clock + |events| && u.remote == t.remote
    ensures u.local == t.local + Failures(events)
    ensures u.g == t.g.(log := u.g.log, closed := u.g.closed, publicURL := u.g.publicURL)
  {
  }

  lemma ReleaseIs(g: Gen, clock: nat, pause: bool, env: Env)
    ensures var u := Release(PauseRemote(Torn(g.(heartbeat := false), clock, [], []), pause, env), env);
            Teardown(g, clock, pause, env) == u.(g := u.g.(closed := u.g.closed.(context := true), executing := false))
  {
    hide PauseRemote, CancelWorkers, ReleaseApi, ReleaseEdge, AwaitWorkers, ReleaseObservability;
  }
}
