/** What construction, activation and teardown do to a generation, over every
    environment. */
module GenerationProofs {
  import opened Generation

  // ---------------------------------------------------------------- reading a log

  /** Successful calls of one kind. */
  function Successes(log: seq<Event>, c: Call): nat {
    if log == [] then 0
    else Successes(log[..|log| - 1], c) + (if log[|log| - 1].call == c && log[|log| - 1].ok then 1 else 0)
  }

  /** The calls that make up an activation; polls of the buffer are not among them. */
  predicate IsStep(c: Call) {
    c.StartApi? || c.LocalOrigin? || c.StartEdge? || c.CheckCapabilities? || c.VerifyEndpoint? || c.Register?
    || c.StartWorkers? || c.Resume? || c.Heartbeat? || c.StartHeartbeatLoop? || c.Publish?
  }

  function Steps(log: seq<Event>): seq<Call> {
    if log == [] then []
    else Steps(log[..|log| - 1]) + (if IsStep(log[|log| - 1].call) then [log[|log| - 1].call] else [])
  }

  function PlanSteps(p: Plan): seq<Call> {
    if p.Done? then [] else (if IsStep(p.call) then [p.call] else []) + PlanSteps(p.rest)
  }

  /** Nothing follows a failed activation step but teardown. */
  ghost predicate FailStops(log: seq<Event>) {
    forall i, j :: 0 <= i < j < |log| && IsStep(log[i].call) && IsStep(log[j].call) ==> log[i].ok
  }

  ghost predicate StepsSucceeded(log: seq<Event>) {
    forall i :: 0 <= i < |log| && IsStep(log[i].call) ==> log[i].ok
  }

  /** The runner record exists remotely from here on. */
  predicate Announces(e: Event) { (e.call.Register? || e.call.RegisterCandidate?) && (e.ok || e.effect) }

  ghost predicate Announced(log: seq<Event>) { exists i :: 0 <= i < |log| && Announces(log[i]) }

  ghost predicate PausedOnlyIfAnnounced(log: seq<Event>) {
    forall i :: 0 <= i < |log| && log[i].call.Pause? ==> Announced(log[..i])
  }

  ghost predicate Has(log: seq<Event>, c: Call) { exists i :: 0 <= i < |log| && log[i].call == c }

  /** Every resume is followed by an attempt to pause. */
  ghost predicate ResumesArePaused(log: seq<Event>) {
    forall i :: 0 <= i < |log| && log[i].call.Resume? ==> Has(log[i + 1..], Pause)
  }

  ghost predicate Timed(log: seq<Event>, clock: nat) {
    (forall i :: 0 <= i < |log| ==> log[i].at < clock)
    && (forall i, j :: 0 <= i < j < |log| ==> log[i].at < log[j].at)
  }

  lemma {:induction false} Appending(log: seq<Event>, e: Event, c: Call)
    ensures Successes(log + [e], c) == Successes(log, c) + (if e.call == c && e.ok then 1 else 0)
    ensures Steps(log + [e]) == Steps(log) + (if IsStep(e.call) then [e.call] else [])
  {
    assert (log + [e])[..|log|] == log;
  }

  // ---------------------------------------------------------------- plans

  lemma OneMore(log: seq<Event>, e: Event)
    requires StepsSucceeded(log)
    ensures FailStops(log + [e])
    ensures !IsStep(e.call) || e.ok ==> StepsSucceeded(log + [e])
  {
  }

  lemma AttemptLog(d: Deps, w: Work, c: Call, env: Env)
    ensures var n := Attempt(d, w, c, env);
            && n.clock == w.clock + 1
            && n.g.log == w.g.log + [Event(c, env(w.clock).ok || Infallible(c), env(w.clock).effect, w.clock)]
            && (n.err == [] && IsStep(c) ==> env(w.clock).ok || Infallible(c))
            && n.g.built == w.g.built && n.g.active == w.g.active && n.g.closed.context == w.g.closed.context
            && n.g.watch.monitors == w.g.watch.monitors && n.g.watch.inFlight == w.g.watch.inFlight
            && (w.g.registered ==> n.g.registered)
  {
  }

  lemma OneMoreNotStep(log: seq<Event>, e: Event)
    requires StepsSucceeded(log)
    ensures !IsStep(e.call) ==> StepsSucceeded(log + [e])
  {
  }

  /** The steps that a plan gets to carry out. */
  function Reached(d: Deps, p: Plan, w: Work, env: Env): seq<Call>
    decreases p
  {
    if p.Done? || w.err != [] then []
    else (if IsStep(p.call) then [p.call] else []) + Reached(d, p.rest, Attempt(d, w, p.call, env), env)
  }

  lemma {:induction false} Unfold(d: Deps, p: Plan, w: Work, env: Env)
    requires p.Then? && w.err == []
    ensures var n := Attempt(d, w, p.call, env);
            && Perform(d, p, w, env) == Perform(d, p.rest, n, env)
            && Reached(d, p, w, env) == (if IsStep(p.call) then [p.call] else []) + Reached(d, p.rest, n, env)
            && Steps(n.g.log) == Steps(w.g.log) + (if IsStep(p.call) then [p.call] else [])
  {
    var c := p.call;
    AttemptLog(d, w, c, env);
    Appending(w.g.log, Event(c, env(w.clock).ok || Infallible(c), env(w.clock).effect, w.clock), c);
  }

  lemma Stopped(d: Deps, p: Plan, w: Work, env: Env)
    requires p.Done? || w.err != []
    ensures Perform(d, p, w, env) == w && Reached(d, p, w, env) == []
  {
  }

  /** A plan carries out a prefix of its steps, all of them if no error stopped it. */
  lemma {:induction false} ReachedInOrder(d: Deps, p: Plan, w: Work, env: Env)
    ensures Reached(d, p, w, env) <= PlanSteps(p)
    ensures Perform(d, p, w, env).err == [] ==> Reached(d, p, w, env) == PlanSteps(p)
    decreases p
  {
    hide Attempt, Effect, Verdict;
    if p.Then? && w.err == [] {
      Unfold(d, p, w, env);
      ReachedInOrder(d, p.rest, Attempt(d, w, p.call, env), env);
    } else {
      Stopped(d, p, w, env);
    }
  }

  lemma {:induction false} ReachedIsLogged(d: Deps, p: Plan, w: Work, env: Env)
    ensures Steps(Perform(d, p, w, env).g.log) == Steps(w.g.log) + Reached(d, p, w, env)
    decreases p
  {
    hide *;
    if p.Then? && w.err == [] {
      Unfold(d, p, w, env);
      ReachedIsLogged(d, p.rest, Attempt(d, w, p.call, env), env);
    } else {
      Stopped(d, p, w, env);
    }
  }

  /** Every step of a plan but the last one carried out succeeded. */
  lemma {:induction false} PerformStops(d: Deps, p: Plan, w: Work, env: Env)
    requires w.err == [] && StepsSucceeded(w.g.log)
    ensures FailStops(Perform(d, p, w, env).g.log)
    ensures Perform(d, p, w, env).err == [] ==> StepsSucceeded(Perform(d, p, w, env).g.log)
    decreases p
  {
    if p.Then? {
      var c := p.call;
      Unfold(d, p, w, env);
      AttemptLog(d, w, c, env);
      OneMore(w.g.log, Event(c, env(w.clock).ok || Infallible(c), env(w.clock).effect, w.clock));
      var n := Attempt(d, w, c, env);
      if n.err == [] {
        PerformStops(d, p.rest, n, env);
      } else {
        Stopped(d, p.rest, n, env);
      }
    }
  }

  predicate TeardownCall(c: Call) {
    c.Pause? || c.StopWorkers? || c.ShutdownApi? || c.StopEdge? || c.CloseEdge? || c.WaitWorkers?
    || c.ShutdownObservability?
  }

  lemma {:induction false} PerformExtends(d: Deps, p: Plan, w: Work, env: Env)
    ensures w.g.log <= Perform(d, p, w, env).g.log && w.clock <= Perform(d, p, w, env).clock
    decreases p
  {
    hide Attempt, Steps, Reached;
    if p.Then? && w.err == [] {
      Unfold(d, p, w, env);
      AttemptLog(d, w, p.call, env);
      PerformExtends(d, p.rest, Attempt(d, w, p.call, env), env);
    }
  }

  // ---------------------------------------------------------------- resources and registration

  predicate Shape(g: Gen) { (g.has.api || g.closed.api) && (g.has.workers || g.closed.workers) }

  /** Every resource that was created is still held. */
  predicate Held(g: Gen) {
    && Shape(g) && (g.has.api ==> !g.closed.api) && (g.has.edge ==> !g.closed.edge)
    && (g.has.observability ==> !g.closed.observability)
    && Successes(g.log, ShutdownApi) == 0 && Successes(g.log, CloseEdge) == 0
    && Successes(g.log, ShutdownObservability) == 0
  }

  /** A resource was successfully released at most once, and its flag says whether. */
  predicate ReleasedOnce(g: Gen) {
    && Successes(g.log, ShutdownApi) == (if g.has.api && g.closed.api then 1 else 0)
    && Successes(g.log, CloseEdge) == (if g.has.edge && g.closed.edge then 1 else 0)
    && Successes(g.log, ShutdownObservability) == (if g.has.observability && g.closed.observability then 1 else 0)
  }

  ghost predicate PauseSound(d: Deps, g: Gen) {
    d.register ==> PausedOnlyIfAnnounced(g.log) && (g.registered ==> Announced(g.log))
  }

  lemma {:induction false} AttemptHeld(d: Deps, w: Work, c: Call, env: Env)
    requires Held(w.g) && PauseSound(d, w.g) && !TeardownCall(c)
    requires (c.StartWorkers? ==> w.g.has.workers) && (c.NewWorkers? ==> w.g.closed.workers)
    ensures Held(Attempt(d, w, c, env).g) && PauseSound(d, Attempt(d, w, c, env).g)
  {
    var n := Attempt(d, w, c, env);
    AttemptLog(d, w, c, env);
    var e := Event(c, env(w.clock).ok || Infallible(c), env(w.clock).effect, w.clock);
    Appending(w.g.log, e, ShutdownApi);
    Appending(w.g.log, e, CloseEdge);
    Appending(w.g.log, e, ShutdownObservability);
    Announcing(w.g.log, e);
  }

  lemma {:induction false} Announcing(log: seq<Event>, e: Event)
    ensures Announced(log + [e]) <==> Announced(log) || Announces(e)
    ensures PausedOnlyIfAnnounced(log + [e]) <==> PausedOnlyIfAnnounced(log) && (e.call.Pause? ==> Announced(log))
  {
    assert (log + [e])[|log|] == e && (log + [e])[..|log|] == log;
    forall i | 0 <= i < |log| ensures (log + [e])[i] == log[i] && (log + [e])[..i] == log[..i] { }
    if PausedOnlyIfAnnounced(log + [e]) {
      forall i | 0 <= i < |log| && log[i].call.Pause? ensures Announced(log[..i]) {
        assert (log + [e])[i].call.Pause?;
      }
    }
  }

  predicate Allowed(g: Gen, c: Call) {
    (IsStep(c) || c.PollFailures?) && (c.StartWorkers? ==> g.has.workers) && (c.Resume? ==> g.has.lifecycle)
  }

  /** A plan of activation steps and polls that uses only what the generation has. */
  predicate Suits(p: Plan, g: Gen) { p.Then? ==> Allowed(g, p.call) && Suits(p.rest, g) }

  lemma {:induction false} SuitsSameParts(p: Plan, g: Gen, h: Gen)
    requires g.has.workers == h.has.workers && g.has.lifecycle == h.has.lifecycle && Suits(p, g)
    ensures Suits(p, h)
    decreases p
  {
    if p.Then? { SuitsSameParts(p.rest, g, h); }
  }

  /** No resume before a registration. */
  predicate RegistersFirst(p: Plan) { p.Then? && !p.call.Register? ==> !p.call.Resume? && RegistersFirst(p.rest) }

  predicate EndsByPublishing(p: Plan) {
    p.Then? && if p.rest.Done? then p.call.Publish? else !p.call.Publish? && EndsByPublishing(p.rest)
  }

  lemma PublishPlanSuits(g: Gen)
    ensures Suits(PublishPlan(), g) && EndsByPublishing(PublishPlan())
  {
  }

  lemma {:induction false} LoopPlanSuits(g: Gen)
    ensures Suits(LoopPlan(), g) && EndsByPublishing(LoopPlan())
  {
    hide PublishPlan;
    PublishPlanSuits(g);
  }

  lemma {:induction false} HeartbeatPlanSuits(g: Gen)
    ensures Suits(HeartbeatPlan(), g) && EndsByPublishing(HeartbeatPlan())
  {
    hide LoopPlan;
    LoopPlanSuits(g);
  }

  lemma {:induction false} LifecyclePlanSuits(g: Gen)
    ensures Suits(LifecyclePlan(g), g) && EndsByPublishing(LifecyclePlan(g))
  {
    hide HeartbeatPlan, PublishPlan;
    HeartbeatPlanSuits(g);
    PublishPlanSuits(g);
  }

  lemma {:induction false} WorkersPlanSuits(g: Gen)
    ensures Suits(WorkersPlan(g), g) && EndsByPublishing(WorkersPlan(g))
  {
    hide LifecyclePlan;
    LifecyclePlanSuits(g);
  }

  lemma {:induction false} RegistrationPlanSuits(d: Deps, g: Gen)
    ensures Suits(RegistrationPlan(d, g), g) && EndsByPublishing(RegistrationPlan(d, g))
    ensures d.register ==> RegistersFirst(RegistrationPlan(d, g))
  {
    hide WorkersPlan;
    WorkersPlanSuits(g);
  }

  lemma {:induction false} EndpointPlanSuits(d: Deps, g: Gen)
    ensures Suits(EndpointPlan(d, g), g) && EndsByPublishing(EndpointPlan(d, g))
    ensures d.register ==> RegistersFirst(EndpointPlan(d, g))
  {
    hide RegistrationPlan;
    RegistrationPlanSuits(d, g);
  }

  lemma {:induction false} CapabilityPlanSuits(d: Deps, g: Gen)
    ensures Suits(CapabilityPlan(d, g), g) && EndsByPublishing(CapabilityPlan(d, g))
    ensures d.register ==> RegistersFirst(CapabilityPlan(d, g))
  {
    hide EndpointPlan;
    EndpointPlanSuits(d, g);
  }

  lemma {:induction false} StartEdgePlanSuits(d: Deps, g: Gen)
    ensures Suits(StartEdgePlan(d, g), g) && EndsByPublishing(StartEdgePlan(d, g))
    ensures d.register ==> RegistersFirst(StartEdgePlan(d, g))
  {
    hide CapabilityPlan;
    CapabilityPlanSuits(d, g);
  }

  lemma {:induction false} EdgePlanSuits(d: Deps, g: Gen)
    ensures Suits(EdgePlan(d, g), g) && EndsByPublishing(EdgePlan(d, g))
    ensures d.register ==> RegistersFirst(EdgePlan(d, g))
  {
    hide StartEdgePlan, CapabilityPlan;
    StartEdgePlanSuits(d, g);
    CapabilityPlanSuits(d, g);
  }

  lemma {:induction false} ActivationPlanSuits(d: Deps, g: Gen)
    ensures Suits(ActivationPlan(d, g), g) && EndsByPublishing(ActivationPlan(d, g))
    ensures d.register ==> RegistersFirst(ActivationPlan(d, g))
  {
    hide EdgePlan;
    EdgePlanSuits(d, g);
  }

  /** Between two calls of an activation. */
  ghost predicate Activating(d: Deps, w: Work) {
    && Held(w.g) && PauseSound(d, w.g) && Timed(w.g.log, w.clock)
    && !w.g.executing && !w.g.closed.context
    && (Has(w.g.log, Resume) ==> w.g.registered && w.g.has.lifecycle)
    && !Has(w.g.log, Pause)
    && (w.err == [] ==> (w.g.watch.forwarded ==> w.g.watch.fatal))
  }

  predicate SameParts(g: Gen, h: Gen) {
    && h.built == g.built && h.active == g.active && h.closed == g.closed.(workers := h.closed.workers)
    && h.has == g.has
    && h.watch.monitors == g.watch.monitors && h.watch.inFlight == g.watch.inFlight
  }

  lemma {:induction false} Having(log: seq<Event>, e: Event, c: Call)
    ensures Has(log + [e], c) <==> Has(log, c) || e.call == c
  {
    assert (log + [e])[|log|] == e;
    forall i | 0 <= i < |log| ensures (log + [e])[i] == log[i] { }
  }

  lemma TimedMore(log: seq<Event>, e: Event, clock: nat)
    requires Timed(log, clock) && e.at == clock
    ensures Timed(log + [e], clock + 1)
  {
  }

  /** The fields after one call of an activation other than the last. */
  lemma {:induction false} ActivatingFields(d: Deps, w: Work, c: Call, env: Env)
    requires Allowed(w.g, c) && !c.Publish?
    ensures var n := Attempt(d, w, c, env);
            && SameParts(w.g, n.g) && n.g.publicURL == w.g.publicURL && n.g.executing == w.g.executing
            && n.g.registered == (w.g.registered || (c.Register? && (env(w.clock).ok || env(w.clock).effect)))
            && (c.Register? && n.err == [] ==> env(w.clock).ok)
    ensures var n := Attempt(d, w, c, env);
            (w.g.watch.forwarded ==> w.g.watch.fatal) && n.err == [] ==> (n.g.watch.forwarded ==> n.g.watch.fatal)
  {
    hide Record;
    assert forall g: Gen, e, ok, k :: Record(g, c, ok, e, k) == g.(log := g.log + [Event(c, ok, e, k)]) by {
      RecordIs(c);
    }
  }

  lemma RecordIs(c: Call)
    ensures forall g: Gen, e, ok, k :: Record(g, c, ok, e, k) == g.(log := g.log + [Event(c, ok, e, k)])
  {
  }

  lemma AllowedIsNoTeardown(g: Gen, c: Call)
    requires Allowed(g, c)
    ensures !TeardownCall(c) && !c.NewWorkers? && !c.Pause?
  {
  }

  lemma {:induction false} AttemptActivating(d: Deps, w: Work, c: Call, env: Env)
    requires Activating(d, w) && w.err == [] && Allowed(w.g, c) && !c.Publish? && (c.Resume? ==> w.g.registered)
    ensures var n := Attempt(d, w, c, env);
            && Activating(d, n) && SameParts(w.g, n.g) && n.g.publicURL == w.g.publicURL
            && (w.g.registered || (c.Register? && n.err == []) ==> n.g.registered)
  {
    hide Held, PauseSound, Successes, Has, Attempt, Timed, IsStep;
    AllowedIsNoTeardown(w.g, c);
    AttemptLog(d, w, c, env);
    AttemptHeld(d, w, c, env);
    ActivatingFields(d, w, c, env);
    TimedMore(w.g.log, Event(c, env(w.clock).ok || Infallible(c), env(w.clock).effect, w.clock), w.clock);
    var e := Event(c, env(w.clock).ok || Infallible(c), env(w.clock).effect, w.clock);
    Having(w.g.log, e, Resume);
    Having(w.g.log, e, Pause);
  }

  lemma {:induction false} Publishing(d: Deps, w: Work, env: Env)
    requires Activating(d, w) && w.err == []
    ensures var n := Attempt(d, w, Publish, env);
            && n.err == [] && n.g.executing && n.g.publicURL == w.url && SameParts(w.g, n.g)
            && Activating(d, n.(g := n.g.(executing := false))) && n.g.registered == w.g.registered
  {
    hide Held, PauseSound, Successes, Has;
    AttemptLog(d, w, Publish, env);
    AttemptHeld(d, w, Publish, env);
    var e := Event(Publish, true, env(w.clock).effect, w.clock);
    Having(w.g.log, e, Resume);
    Having(w.g.log, e, Pause);
    StillHeld(d, Attempt(d, w, Publish, env).g);
  }

  lemma StillHeld(d: Deps, g: Gen)
    requires Held(g) && PauseSound(d, g)
    ensures Held(g.(executing := false)) && PauseSound(d, g.(executing := false))
  {
  }

  /** An activation ends executing or with an error, never both; it publishes a URL
      only in the first case, resumes only what is registered and leaves no failure
      behind that the buffer does not hold. */
  lemma {:induction false} PerformActivating(d: Deps, p: Plan, w: Work, env: Env)
    requires Activating(d, w) && w.err == []
    requires Suits(p, w.g) && EndsByPublishing(p) && (w.g.registered || RegistersFirst(p))
    ensures var r := Perform(d, p, w, env);
            && (r.err == [] <==> r.g.executing) && SameParts(w.g, r.g)
            && (r.err != [] ==> r.g.publicURL == w.g.publicURL)
            && Activating(d, r.(g := r.g.(executing := false)))
    decreases p
  {
    hide Attempt, Perform, Reached, Steps, Held, PauseSound, Timed, Has;
    Unfold(d, p, w, env);
    var n := Attempt(d, w, p.call, env);
    if p.rest.Done? {
      Publishing(d, w, env);
      Stopped(d, p.rest, n, env);
    } else {
      AttemptActivating(d, w, p.call, env);
      if n.err == [] {
        SuitsSameParts(p.rest, w.g, n.g);
        PerformActivating(d, p.rest, n, env);
      } else {
        Stopped(d, p.rest, n, env);
      }
    }
  }

  // ---------------------------------------------------------------- construction

  /** No constructor reports success and returns nothing. */
  ghost predicate Wired(env: Env) { forall n: nat :: env(n).ok ==> !env(n).nothing }

  predicate Constructor(c: Call) { c.InitObservability? || c.NewApi? || c.NewWorkers? || c.NewEdge? }

  predicate Constructs(p: Plan) { p.Then? ==> Constructor(p.call) && Constructs(p.rest) }

  function Granted(d: Deps, has: Parts, c: Call): Parts {
    Provide(d, has, c, Answer(true, false, false, "", Config(false, "", [])))
  }

  /** The parts a generation has if every constructor of the plan succeeds. */
  function Completed(d: Deps, p: Plan, has: Parts): Parts {
    if p.Done? then has else Completed(d, p.rest, Granted(d, has, p.call))
  }

  ghost predicate Constructing(d: Deps, w: Work, start: nat) {
    && Held(w.g) && PauseSound(d, w.g) && Timed(w.g.log, w.clock) && Steps(w.g.log) == [] && StepsSucceeded(w.g.log)
    && (forall i :: 0 <= i < |w.g.log| ==> w.g.log[i].at >= start && Constructor(w.g.log[i].call))
    && start <= w.clock && w.g.closed.workers
    && w.g == w.g.(built := false, executing := false, publicURL := "", registered := !d.register)
    && w.g.watch == Watch(false, false, 0, 0) && !w.g.closed.context
    && (w.g.has.api ==> w.g.log != [])
  }

  /** The fields after one constructor. */
  lemma ConstructingFields(d: Deps, w: Work, c: Call, env: Env)
    requires Constructor(c)
    ensures var n := Attempt(d, w, c, env);
            && n.g.(has := w.g.has, closed := w.g.closed, log := w.g.log) == w.g
            && n.g.closed.workers == w.g.closed.workers && n.g.closed.context == w.g.closed.context
            && (n.g.has.api ==> w.g.has.api || n.g.log != [])
            && (Wired(env) && n.err == [] ==> n.g.has == Granted(d, w.g.has, c))
            && (Wired(env) && !Phantom(w.g) ==> !Phantom(n.g))
  {
  }

  lemma {:induction false} AttemptConstructing(d: Deps, w: Work, c: Call, start: nat, env: Env)
    requires Constructing(d, w, start) && w.err == [] && Constructor(c)
    ensures var n := Attempt(d, w, c, env);
            && Constructing(d, n, start) && n.g.active == w.g.active
            && (Wired(env) && n.err == [] ==> n.g.has == Granted(d, w.g.has, c))
            && (Wired(env) && !Phantom(w.g) ==> !Phantom(n.g))
  {
    hide Held, PauseSound, Steps, Successes, Attempt, Timed, Phantom, Granted, StepsSucceeded;
    AttemptLog(d, w, c, env);
    AttemptHeld(d, w, c, env);
    ConstructingFields(d, w, c, env);
    TimedMore(w.g.log, Event(c, env(w.clock).ok || Infallible(c), env(w.clock).effect, w.clock), w.clock);
    OneMoreNotStep(w.g.log, Event(c, env(w.clock).ok || Infallible(c), env(w.clock).effect, w.clock));
    Appending(w.g.log, Event(c, env(w.clock).ok || Infallible(c), env(w.clock).effect, w.clock), c);
  }

  lemma {:induction false} PerformConstructing(d: Deps, p: Plan, w: Work, start: nat, env: Env)
    requires Constructing(d, w, start) && w.err == [] && Constructs(p)
    ensures var r := Perform(d, p, w, env);
            && Constructing(d, r, start) && r.g.active == w.g.active
            && (Wired(env) && r.err == [] ==> r.g.has == Completed(d, p, w.g.has))
            && (Wired(env) && !Phantom(w.g) ==> !Phantom(r.g))
    decreases p
  {
    hide Attempt, Perform, Reached, Steps, Constructing, Phantom, Granted;
    if p.Then? {
      Unfold(d, p, w, env);
      var n := Attempt(d, w, p.call, env);
      AttemptConstructing(d, w, p.call, start, env);
      if n.err == [] {
        PerformConstructing(d, p.rest, n, start, env);
      } else {
        Stopped(d, p.rest, n, env);
      }
    } else {
      Stopped(d, p, w, env);
    }
  }

  lemma {:induction false} ConstructionPlanCompletes(d: Deps)
    ensures Constructs(ConstructionPlan(d))
    ensures Completed(d, ConstructionPlan(d), Parts(false, false, false, false, false))
            == Parts(true, d.edge, d.observability, d.workers, d.lifecycle)
  {
    hide Completed, AttachPlan;
    AttachPlanCompletes(d, d.observability);
    CompletedStep(d, ConstructionPlan(d), Parts(false, false, false, false, false));
  }

  lemma CompletedStep(d: Deps, p: Plan, has: Parts)
    ensures Completed(d, p, has) == if p.Done? then has else Completed(d, p.rest, Granted(d, has, p.call))
  {
  }

  lemma {:induction false} AttachPlanCompletes(d: Deps, observability: bool)
    ensures Constructs(AttachPlan(d))
    ensures Completed(d, AttachPlan(d), Parts(false, false, observability, false, false))
            == Parts(true, d.edge, observability, d.workers, d.lifecycle)
  {
    hide Completed;
    var last := AttachPlan(d).rest.rest;
    assert Constructs(last);
    CompletedStep(d, AttachPlan(d), Parts(false, false, observability, false, false));
    CompletedStep(d, AttachPlan(d).rest, Parts(true, false, observability, false, false));
    CompletedStep(d, last, Parts(true, false, observability, d.workers, d.lifecycle));
    CompletedStep(d, Done, Parts(true, d.edge, observability, d.workers, d.lifecycle));
  }

  /** A construction that succeeds yields exactly the parts whose constructors were
      supplied, holding everything it created; nothing has been activated. */
  lemma {:induction false} ConstructionOutcome(d: Deps, cfg: Config, clock: nat, env: Env)
    requires Wired(env)
    ensures var r := Construct(d, cfg, clock, env);
            && Constructing(d, r, clock) && r.g.active == cfg && !Phantom(r.g)
            && (r.err == [] ==> r.g.has == Parts(true, d.edge, d.observability, d.workers, d.lifecycle))
  {
    hide Perform, Attempt, Completed, Constructs, ConstructionPlan;
    var w := Work(Fresh(d, cfg), clock, "", []);
    ConstructionPlanCompletes(d);
    PerformConstructing(d, ConstructionPlan(d), w, clock, env);
  }

  // ---------------------------------------------------------------- teardown

  ghost predicate Sound(d: Deps, g: Gen, clock: nat) {
    Timed(g.log, clock) && Shape(g) && ReleasedOnce(g) && PauseSound(d, g)
  }

  ghost predicate Continues(log: seq<Event>, more: seq<Event>) {
    log <= more && forall i :: |log| <= i < |more| ==> TeardownCall(more[i].call)
  }

  /** Teardown calls only are added, and only flags of resources may change. */
  ghost predicate Carries(g: Gen, h: Gen) {
    && Continues(g.log, h.log)
    && h.built == g.built && h.active == g.active && h.registered == g.registered
    && h.has == g.has
    && h.watch == g.watch
  }

  /** Recording one teardown call, with the flag of what it released. */
  lemma {:induction false} Releasing(d: Deps, g: Gen, h: Gen, c: Call, ok: bool, effect: bool, clock: nat)
    requires Sound(d, g, clock) && TeardownCall(c) && Shape(h)
    requires c.Pause? ==> g.registered
    requires h.log == g.log + [Event(c, ok, effect, clock)] && h.registered == g.registered
    requires h.has == g.has
    requires if c.ShutdownApi? then g.has.api && !g.closed.api && h.closed.api == ok else h.closed.api == g.closed.api
    requires if c.CloseEdge? then g.has.edge && !g.closed.edge && h.closed.edge == ok
               else h.closed.edge == g.closed.edge
    requires if c.ShutdownObservability?
             then g.has.observability && !g.closed.observability && h.closed.observability == ok
             else h.closed.observability == g.closed.observability
    ensures Sound(d, h, clock + 1) && Continues(g.log, h.log)
  {
    hide Successes, Announced, PausedOnlyIfAnnounced, Timed, ReleasedOnce;
    var e := Event(c, ok, effect, clock);
    TimedMore(g.log, e, clock);
    ReleasingOnce(g, h, e);
    Announcing(g.log, e);
  }

  lemma {:induction false} ReleasingOnce(g: Gen, h: Gen, e: Event)
    requires ReleasedOnce(g) && h.log == g.log + [e] && h.has == g.has
    requires if e.call.ShutdownApi? then g.has.api && !g.closed.api && h.closed.api == e.ok
               else h.closed.api == g.closed.api
    requires if e.call.CloseEdge? then g.has.edge && !g.closed.edge && h.closed.edge == e.ok
               else h.closed.edge == g.closed.edge
    requires if e.call.ShutdownObservability?
             then g.has.observability && !g.closed.observability && h.closed.observability == e.ok
             else h.closed.observability == g.closed.observability
    ensures ReleasedOnce(h)
  {
    hide Successes;
    Appending(g.log, e, ShutdownApi);
    Appending(g.log, e, CloseEdge);
    Appending(g.log, e, ShutdownObservability);
  }

  lemma {:induction false} ContinuesItself(log: seq<Event>) ensures Continues(log, log) { }

  lemma ContinuesOn(a: seq<Event>, b: seq<Event>, c: seq<Event>)
    requires Continues(a, b) && Continues(b, c)
    ensures Continues(a, c)
  {
  }

  ghost predicate Proceeds(d: Deps, t: Torn, u: Torn) {
    Sound(d, u.g, u.clock) && Carries(t.g, u.g) && t.clock <= u.clock
  }

  lemma {:induction false} PauseRemoteProceeds(d: Deps, t: Torn, pause: bool, env: Env)
    requires Sound(d, t.g, t.clock)
    ensures var u := PauseRemote(t, pause, env);
            && Proceeds(d, t, u) && u.local == t.local && SameFlags(t.g, u.g)
            && (pause && t.g.has.lifecycle && t.g.registered ==>
                 |u.g.log| == |t.g.log| + 1 && u.g.log[|t.g.log|].call == Pause)
            && (!(pause && t.g.has.lifecycle && t.g.registered) ==> u == t)
  {
    hide ReleasedOnce, PauseSound, Timed, Continues;
    ContinuesItself(t.g.log);
    if pause && t.g.has.lifecycle && t.g.registered {
      var a := env(t.clock);
      Releasing(d, t.g, PauseRemote(t, pause, env).g, Pause, a.ok, a.effect, t.clock);
    }
  }

  predicate SameFlags(g: Gen, h: Gen) {
    h.closed.workers == g.closed.workers && h.closed.api == g.closed.api && h.closed.edge == g.closed.edge
    && h.closed.observability == g.closed.observability && h.closed.context == g.closed.context
  }

  lemma {:induction false} CancelWorkersProceeds(d: Deps, t: Torn, env: Env)
    requires Sound(d, t.g, t.clock)
    ensures Proceeds(d, t, CancelWorkers(t, env)) && CancelWorkers(t, env).local == t.local
  {
    hide ReleasedOnce, PauseSound, Timed, Continues;
    ContinuesItself(t.g.log);
    if t.g.has.workers {
      Releasing(d, t.g, CancelWorkers(t, env).g, StopWorkers, true, false, t.clock);
    }
  }

  lemma {:induction false} ReleaseApiProceeds(d: Deps, t: Torn, env: Env)
    requires Sound(d, t.g, t.clock)
    ensures Proceeds(d, t, ReleaseApi(t, env))
  {
    hide ReleasedOnce, PauseSound, Timed, Continues;
    ContinuesItself(t.g.log);
    if t.g.has.api && !t.g.closed.api {
      var a := env(t.clock);
      Releasing(d, t.g, ReleaseApi(t, env).g, ShutdownApi, a.ok, a.effect, t.clock);
    }
  }

  lemma {:induction false} HaltEdgeProceeds(d: Deps, t: Torn, env: Env)
    requires Sound(d, t.g, t.clock)
    ensures Proceeds(d, t, HaltEdge(t, env)) && HaltEdge(t, env).g.closed.edge == t.g.closed.edge
  {
    hide ReleasedOnce, PauseSound, Timed, Continues;
    var a := env(t.clock);
    Releasing(d, t.g, HaltEdge(t, env).g, StopEdge, a.ok, a.effect, t.clock);
  }

  lemma {:induction false} DiscardEdgeProceeds(d: Deps, t: Torn, env: Env)
    requires Sound(d, t.g, t.clock) && t.g.has.edge && !t.g.closed.edge
    ensures Proceeds(d, t, DiscardEdge(t, env))
  {
    hide ReleasedOnce, PauseSound, Timed, Continues;
    var a := env(t.clock);
    Releasing(d, t.g, DiscardEdge(t, env).g, CloseEdge, a.ok, a.effect, t.clock);
  }

  lemma {:induction false} ReleaseEdgeProceeds(d: Deps, t: Torn, env: Env)
    requires Sound(d, t.g, t.clock)
    ensures Proceeds(d, t, ReleaseEdge(t, env))
  {
    hide Sound, HaltEdge, DiscardEdge, Continues;
    ContinuesItself(t.g.log);
    if t.g.has.edge && !t.g.closed.edge {
      var halted := HaltEdge(t, env);
      HaltEdgeProceeds(d, t, env);
      if halted.local == t.local {
        DiscardEdgeProceeds(d, halted, env);
        ContinuesOn(t.g.log, halted.g.log, DiscardEdge(halted, env).g.log);
      }
    }
  }

  lemma {:induction false} AwaitWorkersProceeds(d: Deps, t: Torn, env: Env)
    requires Sound(d, t.g, t.clock)
    ensures Proceeds(d, t, AwaitWorkers(t, env))
  {
    hide ReleasedOnce, PauseSound, Timed, Continues;
    ContinuesItself(t.g.log);
    if t.g.has.workers && !t.g.closed.workers {
      var a := env(t.clock);
      Releasing(d, t.g, AwaitWorkers(t, env).g, WaitWorkers, a.ok, a.effect, t.clock);
    }
  }

  lemma {:induction false} ReleaseObservabilityProceeds(d: Deps, t: Torn, env: Env)
    requires Sound(d, t.g, t.clock)
    ensures Proceeds(d, t, ReleaseObservability(t, env))
  {
    hide ReleasedOnce, PauseSound, Timed, Continues;
    ContinuesItself(t.g.log);
    if t.g.has.observability && !t.g.closed.observability {
      var a := env(t.clock);
      Releasing(d, t.g, ReleaseObservability(t, env).g, ShutdownObservability, a.ok, a.effect, t.clock);
    }
  }

  lemma {:induction false} ContinuesSteps(log: seq<Event>, more: seq<Event>)
    requires Continues(log, more)
    ensures log <= more && Steps(more) == Steps(log)
    decreases |more|
  {
    if |more| > |log| {
      ContinuesSteps(log, more[..|more| - 1]);
    } else {
      assert more == log;
    }
  }

  lemma {:induction false} ContinuesStops(log: seq<Event>, more: seq<Event>)
    requires Continues(log, more) && FailStops(log)
    ensures FailStops(more)
  {
    forall i, j | 0 <= i < j < |more| && IsStep(more[i].call) && IsStep(more[j].call) ensures more[i].ok {
      assert j < |log| && more[i] == log[i] && more[j] == log[j];
    }
  }

  lemma {:induction false} ProceedsOn(d: Deps, t: Torn, u: Torn, v: Torn)
    requires Proceeds(d, t, u) && Proceeds(d, u, v)
    ensures Proceeds(d, t, v)
  {
    hide Sound, Continues;
    ContinuesOn(t.g.log, u.g.log, v.g.log);
  }

  /** The calls of a teardown after the pause. */
  function Release(t: Torn, env: Env): Torn {
    ReleaseObservability(AwaitWorkers(ReleaseEdge(ReleaseApi(CancelWorkers(t, env), env), env), env), env)
  }

  lemma {:induction false} ReleaseProceeds(d: Deps, t: Torn, env: Env)
    requires Sound(d, t.g, t.clock)
    ensures Proceeds(d, t, Release(t, env))
  {
    hide Sound, Carries, CancelWorkers, ReleaseApi, ReleaseEdge, AwaitWorkers, ReleaseObservability;
    var t2 := CancelWorkers(t, env);
    CancelWorkersProceeds(d, t, env);
    var t3 := ReleaseApi(t2, env);
    ReleaseApiProceeds(d, t2, env);
    ProceedsOn(d, t, t2, t3);
    var t4 := ReleaseEdge(t3, env);
    ReleaseEdgeProceeds(d, t3, env);
    ProceedsOn(d, t, t3, t4);
    var t5 := AwaitWorkers(t4, env);
    AwaitWorkersProceeds(d, t4, env);
    ProceedsOn(d, t, t4, t5);
    ReleaseObservabilityProceeds(d, t5, env);
    ProceedsOn(d, t, t5, ReleaseObservability(t5, env));
  }

  lemma Cancelled(d: Deps, g: Gen, clock: nat)
    requires Sound(d, g, clock)
    ensures Sound(d, g.(closed := g.closed.(context := true), executing := false), clock)
    ensures Sound(d, g.(heartbeat := false), clock)
  {
  }

  /** A teardown only adds teardown calls, pauses first when it has to, and leaves
      the generation idle with its context cancelled. */
  lemma {:induction false} TeardownSound(d: Deps, g: Gen, clock: nat, pause: bool, env: Env)
    requires Sound(d, g, clock)
    ensures var t := Teardown(g, clock, pause, env);
            && Sound(d, t.g, t.clock) && Carries(g, t.g) && clock <= t.clock
            && !t.g.executing && t.g.closed.context
            && (pause && g.has.lifecycle && g.registered ==> |t.g.log| > |g.log| && t.g.log[|g.log|].call == Pause)
  {
    hide Sound, PauseRemote, CancelWorkers, ReleaseApi, ReleaseEdge, AwaitWorkers, ReleaseObservability;
    var t0 := Torn(g.(heartbeat := false), clock, [], []);
    Cancelled(d, g, clock);
    var t1 := PauseRemote(t0, pause, env);
    PauseRemoteProceeds(d, t0, pause, env);
    ReleaseProceeds(d, t1, env);
    ProceedsOn(d, t0, t1, Release(t1, env));
    Cancelled(d, Release(t1, env).g, Release(t1, env).clock);
  }

  lemma ReleaseApiError(t: Torn, env: Env)
    requires t.g.has.api || t.g.closed.api
    ensures var u := ReleaseApi(t, env);
            && (u.local == [] <==> t.local == [] && u.g.closed.api)
            && u.g.has == t.g.has && u.g.closed == t.g.closed.(api := u.g.closed.api)
  {
  }

  lemma ReleaseEdgeError(t: Torn, env: Env)
    ensures var u := ReleaseEdge(t, env);
            && (u.local == [] <==> t.local == [] && (!t.g.has.edge || u.g.closed.edge))
            && u.g.has == t.g.has && u.g.closed == t.g.closed.(edge := u.g.closed.edge)
            && (!t.g.has.edge ==> u == t)
  {
  }

  lemma AwaitWorkersError(t: Torn, env: Env)
    requires t.g.has.workers || t.g.closed.workers
    ensures var u := AwaitWorkers(t, env);
            && (u.local == [] <==> t.local == [] && u.g.closed.workers)
            && u.g.has == t.g.has && u.g.closed == t.g.closed.(workers := u.g.closed.workers)
  {
  }

  lemma ReleaseObservabilityError(t: Torn, env: Env)
    ensures var u := ReleaseObservability(t, env);
            && (u.local == [] <==> t.local == [] && (!t.g.has.observability || u.g.closed.observability))
            && u.g.has == t.g.has && u.g.closed == t.g.closed.(observability := u.g.closed.observability)
            && (!t.g.has.observability ==> u == t)
  {
  }

  /** A teardown reports no local error exactly when every resource is closed after
      it, unless a constructor reported success and returned nothing; such a
      phantom resource is never closed. */
  lemma {:induction false} NilErrorMeansClosed(g: Gen, clock: nat, pause: bool, env: Env)
    requires Shape(g)
    ensures var t := Teardown(g, clock, pause, env);
            && (Closed(t.g) <==> t.local == [] && !Phantom(g))
            && (Phantom(g) <==> Phantom(t.g))
  {
    hide PauseRemote, ReleaseApi, ReleaseEdge, AwaitWorkers, ReleaseObservability;
    var t1 := PauseRemote(Torn(g.(heartbeat := false), clock, [], []), pause, env);
    PauseRemoteFlags(Torn(g.(heartbeat := false), clock, [], []), pause, env);
    var t2 := CancelWorkers(t1, env);
    var t3 := ReleaseApi(t2, env);
    ReleaseApiError(t2, env);
    var t4 := ReleaseEdge(t3, env);
    ReleaseEdgeError(t3, env);
    var t5 := AwaitWorkers(t4, env);
    AwaitWorkersError(t4, env);
    ReleaseObservabilityError(t5, env);
  }

  lemma PauseRemoteFlags(t: Torn, pause: bool, env: Env)
    ensures var u := PauseRemote(t, pause, env); u.local == t.local && u.g.has == t.g.has && u.g.closed == t.g.closed
  {
  }

  // ---------------------------------------------------------------- constructors that return nothing

  /** The number of the call with which the API is constructed; the edge is two calls on. */
  function ApiCall(d: Deps, clock: nat): nat { if d.observability then clock + 1 else clock }

  /** The second half of a construction, field by field. */
  lemma {:induction false} AttachYields(d: Deps, w: Work, env: Env)
    requires w.err == [] && !w.g.has.edge && w.g.closed.edge
    ensures var r := Perform(d, AttachPlan(d), w, env);
            && (r.err == [] ==> env(w.clock).ok && !env(w.clock).nothing && (d.edge ==> env(w.clock + 2).ok))
            && (env(w.clock).ok && !env(w.clock).nothing && (d.edge ==> env(w.clock + 2).ok) ==> r.err == [])
            && (r.err == [] ==>
                  && r.g.closed.edge == !d.edge && r.g.has.edge == (d.edge && !env(w.clock + 2).nothing)
                  && r.g.closed.observability == w.g.closed.observability
                  && r.g.has.observability == w.g.has.observability)
  {
    hide Perform, Reached, Steps, Record;
    RecordIs(NewApi);
    RecordIs(NewWorkers);
    RecordIs(NewEdge);
    var p := AttachPlan(d);
    var w1 := Attempt(d, w, NewApi, env);
    Unfold(d, p, w, env);
    if w1.err != [] {
      Stopped(d, p.rest, w1, env);
    } else {
      var w2 := Attempt(d, w1, NewWorkers, env);
      Unfold(d, p.rest, w1, env);
      if d.edge {
        Unfold(d, p.rest.rest, w2, env);
        Stopped(d, Done, Attempt(d, w2, NewEdge, env), env);
      } else {
        Stopped(d, Done, w2, env);
      }
    }
  }

  /** A construction that succeeds leaves a flag open for good exactly if a constructor of
      the edge or of the telemetry succeeded and returned nothing. */
  lemma {:induction false} PhantomExactly(d: Deps, cfg: Config, clock: nat, env: Env)
    requires Construct(d, cfg, clock, env).err == []
    ensures Phantom(Construct(d, cfg, clock, env).g) <==>
              (d.observability && env(clock).nothing) || (d.edge && env(ApiCall(d, clock) + 2).nothing)
  {
    hide Perform, Reached, Steps, Record, AttachPlan;
    RecordIs(InitObservability);
    var w := Work(Fresh(d, cfg), clock, "", []);
    if d.observability {
      var w1 := Attempt(d, w, InitObservability, env);
      Unfold(d, ConstructionPlan(d), w, env);
      if w1.err != [] { Stopped(d, AttachPlan(d), w1, env); } else { AttachYields(d, w1, env); }
    } else {
      AttachYields(d, w, env);
    }
  }

  /** So it is with an edge constructor that returns nothing, while all other calls work:
      the generation is complete, and its teardown reports no error and does not close it. */
  lemma {:induction false} PhantomEdgeStaysOpen(d: Deps, cfg: Config, clock: nat, pause: bool, env: Env)
    requires d.edge && env(ApiCall(d, clock) + 2).nothing && !env(ApiCall(d, clock)).nothing
    requires forall n: nat :: env(n).ok
    ensures var w := Construct(d, cfg, clock, env);
            var t := Teardown(w.g.(built := true), w.clock, pause, env);
            w.err == [] && t.remote == [] && t.local == [] && !Closed(t.g)
  {
    hide Construct, Perform, PauseRemote, CancelWorkers, ReleaseApi, ReleaseEdge, AwaitWorkers, ReleaseObservability;
    hide Teardown;
    var w := Construct(d, cfg, clock, env);
    AllOkConstructs(d, cfg, clock, env);
    PhantomExactly(d, cfg, clock, env);
    var g := w.g.(built := true);
    assert Phantom(g) == Phantom(w.g);
    AllOkTearsDown(g, w.clock, pause, env);
    ConstructedShape(d, cfg, clock, env);
    NilErrorMeansClosed(g, w.clock, pause, env);
  }

  lemma {:induction false} AllOkConstructs(d: Deps, cfg: Config, clock: nat, env: Env)
    requires (forall n: nat :: env(n).ok) && !env(ApiCall(d, clock)).nothing
    ensures Construct(d, cfg, clock, env).err == []
  {
    hide Perform, Reached, Steps, Record, AttachPlan;
    RecordIs(InitObservability);
    var w := Work(Fresh(d, cfg), clock, "", []);
    if d.observability {
      Unfold(d, ConstructionPlan(d), w, env);
      AttachYields(d, Attempt(d, w, InitObservability, env), env);
    } else {
      AttachYields(d, w, env);
    }
  }

  /** Also without the assumption on constructors a construction keeps this shape. */
  lemma {:induction false} ConstructedShape(d: Deps, cfg: Config, clock: nat, env: Env)
    ensures Shape(Construct(d, cfg, clock, env).g)
  {
    hide Perform, Attempt, Constructing, ConstructionPlan, Constructs;
    ConstructionPlanCompletes(d);
    FreshConstructing(d, cfg, clock);
    PerformConstructing(d, ConstructionPlan(d), Work(Fresh(d, cfg), clock, "", []), clock, env);
    ConstructingShape(d, Construct(d, cfg, clock, env), clock);
  }

  lemma FreshConstructing(d: Deps, cfg: Config, clock: nat)
    ensures Constructing(d, Work(Fresh(d, cfg), clock, "", []), clock)
  {
  }

  lemma {:induction false} ConstructingShape(d: Deps, w: Work, clock: nat)
    requires Constructing(d, w, clock)
    ensures Shape(w.g)
  {
    hide PauseSound, Timed, Steps, StepsSucceeded, Successes;
  }

  lemma {:induction false} AllOkTearsDown(g: Gen, clock: nat, pause: bool, env: Env)
    requires forall n: nat :: env(n).ok
    ensures Teardown(g, clock, pause, env).remote == [] && Teardown(g, clock, pause, env).local == []
  {
    hide Record;
  }
}
