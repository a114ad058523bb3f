/** One runtime generation: the resources it owns, what was done to it, and the
    three sequences the supervisor runs on it (construction, activation and
    teardown).  Every outside call is answered by an environment, an arbitrary
    function from the number of the call to its answer, so a statement about all
    environments is a statement about every failure of every call. */
module Generation {

  /** An outside call, or a point where the code looks at shared state. */
  datatype Call =
    | InitObservability | NewApi | NewWorkers | NewEdge
    | StartApi | PollFailures | LocalOrigin | StartEdge | CheckCapabilities | VerifyEndpoint | Register
    | StartWorkers | Resume | Heartbeat | StartHeartbeatLoop | Publish
    | ValidateDevices | VerifyCandidate | RegisterCandidate
    | Pause | StopWorkers | ShutdownApi | StopEdge | CloseEdge | WaitWorkers | ShutdownObservability
    | LoadConfig | ValidateConfig | SaveState

  /** The answer to one call.  `ok`: it returned no error.  `effect`: it had its
      outside effect although it may have returned an error (a runner record was
      created, the state file was replaced) or, at a poll, a component failure was
      forwarded just before.  `nothing`: a constructor returned no object. */
  datatype Answer = Answer(ok: bool, effect: bool, nothing: bool, text: string, cfg: Config)

  type Env = nat -> Answer

  /** The part of a configuration that the supervisor itself reads. */
  datatype Config = Config(manual: bool, publicURL: string, devices: seq<Device>)
  datatype Device = Device(id: string, enabled: bool, physical: bool, address: string)

  /** Which optional dependencies were supplied. */
  datatype Deps = Deps(api: bool, edge: bool, workers: bool, lifecycle: bool, observability: bool,
                       capabilities: bool, devices: bool, register: bool, verify: bool)

  datatype Cause = CallFailed(call: Call) | NoApiConstructor | ComponentFailed | StillOwnsResources | NotRunning
  /** A nil error is the empty list of causes; joining errors concatenates. */
  type Error = seq<Cause>

  /** `ok` holds for calls that cannot fail; `at` is the number of the call. */
  datatype Event = Event(call: Call, ok: bool, effect: bool, at: nat)

  datatype Parts = Parts(api: bool, edge: bool, observability: bool, workers: bool, lifecycle: bool)

  datatype Flags = Flags(api: bool, edge: bool, observability: bool, workers: bool, context: bool)

  /** `fatal`: the one-place failure buffer is occupied; `forwarded`: some component
      failure was forwarded; `monitors`: goroutines waiting on the buffer;
      `inFlight`: failures that a monitor received and has not handled yet. */
  datatype Watch = Watch(fatal: bool, forwarded: bool, monitors: nat, inFlight: nat)

  datatype Gen = Gen(
    built: bool, executing: bool, heartbeat: bool, registered: bool,
    has: Parts, closed: Flags, watch: Watch, publicURL: string, active: Config, log: seq<Event>)

  function Fresh(d: Deps, cfg: Config): Gen {
    Gen(false, false, false, !d.register, Parts(false, false, false, false, false),
        Flags(true, true, true, true, false), Watch(false, false, 0, 0), "", cfg, [])
  }

  predicate Closed(g: Gen) {
    g.closed.workers && g.closed.api && g.closed.edge && g.closed.observability && g.closed.context
  }

  /** A constructor reported success but returned nothing, so the closed flag was
      lowered for a resource that teardown will never touch. */
  predicate Phantom(g: Gen) {
    (!g.has.edge && !g.closed.edge) || (!g.has.observability && !g.closed.observability)
  }

  function Record(g: Gen, c: Call, ok: bool, effect: bool, clock: nat): Gen {
    g.(log := g.log + [Event(c, ok, effect, clock)])
  }

  // ---------------------------------------------------------------- plans

  /** A straight-line sequence of calls that stops at the first error. */
  datatype Plan = Done | Then(call: Call, rest: Plan)

  datatype Work = Work(g: Gen, clock: nat, url: string, err: Error)

  predicate Infallible(c: Call) {
    c.PollFailures? || c.StartHeartbeatLoop? || c.Publish? || c.NewWorkers? || c.StopWorkers?
  }

  /** What one call changes in the generation, field by field. */
  function Effect(d: Deps, g: Gen, url: string, c: Call, a: Answer): Gen {
    g.(has := Provide(d, g.has, c, a), closed := Open(g.closed, c, a), watch := Notice(g.watch, c, a),
       registered := g.registered || (c.Register? && (a.ok || a.effect)),
       heartbeat := g.heartbeat || c.StartHeartbeatLoop?,
       publicURL := if c.Publish? then url else g.publicURL,
       executing := g.executing || c.Publish?)
  }

  function Provide(d: Deps, has: Parts, c: Call, a: Answer): Parts {
    match c
    case InitObservability => if a.ok then has.(observability := !a.nothing) else has
    case NewApi => if a.ok && !a.nothing then has.(api := true) else has
    case NewWorkers => has.(workers := d.workers, lifecycle := d.lifecycle)
    case NewEdge => if a.ok then has.(edge := !a.nothing) else has
    case _ => has
  }

  function Open(closed: Flags, c: Call, a: Answer): Flags {
    match c
    case InitObservability => if a.ok then closed.(observability := false) else closed
    case NewApi => if a.ok && !a.nothing then closed.(api := false) else closed
    case NewEdge => if a.ok then closed.(edge := false) else closed
    case StartWorkers => closed.(workers := false)
    case _ => closed
  }

  /** A poll takes what is in the buffer; a failure may be forwarded just before a
      poll, or after the last one. */
  function Notice(watch: Watch, c: Call, a: Answer): Watch {
    match c
    case PollFailures => watch.(fatal := false, forwarded := watch.forwarded || a.effect)
    case Publish => watch.(fatal := watch.fatal || a.effect, forwarded := watch.forwarded || a.effect)
    case _ => watch
  }

  /** The error with which one call ends a plan. */
  function Verdict(g: Gen, c: Call, a: Answer): Error {
    if c.PollFailures? then (if g.watch.fatal || a.effect then [ComponentFailed] else [])
    else if (a.ok && !(c.NewApi? && a.nothing)) || Infallible(c) then []
    else [CallFailed(c)]
  }

  function Attempt(d: Deps, w: Work, c: Call, env: Env): Work {
    var a := env(w.clock);
    Work(Record(Effect(d, w.g, w.url, c, a), c, a.ok || Infallible(c), a.effect, w.clock), w.clock + 1,
         if c.StartEdge? && a.ok then a.text else w.url, Verdict(w.g, c, a))
  }

  function Perform(d: Deps, p: Plan, w: Work, env: Env): Work
    decreases p
  {
    if p.Done? || w.err != [] then w else Perform(d, p.rest, Attempt(d, w, p.call, env), env)
  }

  /** Order of construction. */
  function ConstructionPlan(d: Deps): Plan {
    if d.observability then Then(InitObservability, AttachPlan(d)) else AttachPlan(d)
  }

  function AttachPlan(d: Deps): Plan {
    Then(NewApi, Then(NewWorkers, if d.edge then Then(NewEdge, Done) else Done))
  }

  /** Order of activation, with the polls of the failure buffer where they are. */
  function ActivationPlan(d: Deps, g: Gen): Plan {
    Then(StartApi, Then(PollFailures, EdgePlan(d, g)))
  }

  function EdgePlan(d: Deps, g: Gen): Plan {
    if g.has.edge then Then(LocalOrigin, StartEdgePlan(d, g)) else CapabilityPlan(d, g)
  }

  function StartEdgePlan(d: Deps, g: Gen): Plan { Then(StartEdge, Then(PollFailures, CapabilityPlan(d, g))) }

  function CapabilityPlan(d: Deps, g: Gen): Plan {
    if d.capabilities then Then(CheckCapabilities, EndpointPlan(d, g)) else EndpointPlan(d, g)
  }

  function EndpointPlan(d: Deps, g: Gen): Plan {
    if d.verify then Then(VerifyEndpoint, Then(PollFailures, RegistrationPlan(d, g)))
    else Then(PollFailures, RegistrationPlan(d, g))
  }

  function RegistrationPlan(d: Deps, g: Gen): Plan {
    if d.register then Then(Register, Then(PollFailures, WorkersPlan(g))) else Then(PollFailures, WorkersPlan(g))
  }

  function WorkersPlan(g: Gen): Plan {
    if g.has.workers then Then(StartWorkers, LifecyclePlan(g)) else LifecyclePlan(g)
  }

  function LifecyclePlan(g: Gen): Plan {
    if g.has.lifecycle then Then(PollFailures, Then(Resume, HeartbeatPlan())) else PublishPlan()
  }

  function HeartbeatPlan(): Plan {
    Then(Heartbeat, Then(PollFailures, LoopPlan()))
  }

  function LoopPlan(): Plan { Then(StartHeartbeatLoop, PublishPlan()) }

  function PublishPlan(): Plan { Then(PollFailures, Then(Publish, Done)) }

  function Construct(d: Deps, cfg: Config, clock: nat, env: Env): Work {
    Perform(d, ConstructionPlan(d), Work(Fresh(d, cfg), clock, "", []), env)
  }

  function Activate(d: Deps, g: Gen, clock: nat, env: Env): Work {
    Perform(d, ActivationPlan(d, g), Work(g, clock, "", []), env)
  }

  // ---------------------------------------------------------------- teardown

  datatype Torn = Torn(g: Gen, clock: nat, remote: Error, local: Error)

  function PauseRemote(t: Torn, pause: bool, env: Env): Torn {
    if pause && t.g.has.lifecycle && t.g.registered then
      var a := env(t.clock);
      t.(g := Record(t.g, Pause, a.ok, a.effect, t.clock), clock := t.clock + 1,
         remote := if a.ok then [] else [CallFailed(Pause)])
    else t
  }

  function CancelWorkers(t: Torn, env: Env): Torn {
    if t.g.has.workers then
      t.(g := Record(t.g, StopWorkers, true, false, t.clock).(closed := t.g.closed.(workers := false)),
         clock := t.clock + 1)
    else t
  }

  function ReleaseApi(t: Torn, env: Env): Torn {
    if t.g.has.api && !t.g.closed.api then
      var a := env(t.clock);
      t.(g := Record(t.g, ShutdownApi, a.ok, a.effect, t.clock).(closed := t.g.closed.(api := a.ok)),
         clock := t.clock + 1,
         local := if a.ok then t.local else t.local + [CallFailed(ShutdownApi)])
    else t
  }

  function HaltEdge(t: Torn, env: Env): Torn {
    var a := env(t.clock);
    t.(g := Record(t.g, StopEdge, a.ok, a.effect, t.clock).(publicURL := if a.ok then "" else t.g.publicURL),
       clock := t.clock + 1,
       local := if a.ok then t.local else t.local + [CallFailed(StopEdge)])
  }

  function DiscardEdge(t: Torn, env: Env): Torn {
    var a := env(t.clock);
    t.(g := Record(t.g, CloseEdge, a.ok, a.effect, t.clock).(closed := t.g.closed.(edge := a.ok)), clock := t.clock + 1,
       local := if a.ok then t.local else t.local + [CallFailed(CloseEdge)])
  }

  /** The edge is closed only after it stopped; the URL goes with the stop. */
  function ReleaseEdge(t: Torn, env: Env): Torn {
    if !t.g.has.edge || t.g.closed.edge then t
    else
      var halted := HaltEdge(t, env);
      if halted.local == t.local then DiscardEdge(halted, env) else halted
  }

  function AwaitWorkers(t: Torn, env: Env): Torn {
    if t.g.has.workers && !t.g.closed.workers then
      var a := env(t.clock);
      t.(g := Record(t.g, WaitWorkers, a.ok, a.effect, t.clock).(closed := t.g.closed.(workers := a.ok)),
         clock := t.clock + 1,
         local := if a.ok then t.local else t.local + [CallFailed(WaitWorkers)])
    else t
  }

  function ReleaseObservability(t: Torn, env: Env): Torn {
    if t.g.has.observability && !t.g.closed.observability then
      var a := env(t.clock);
      t.(g := Record(t.g, ShutdownObservability, a.ok, a.effect,
                     t.clock).(closed := t.g.closed.(observability := a.ok)), clock := t.clock + 1,
         local := if a.ok then t.local else t.local + [CallFailed(ShutdownObservability)])
    else t
  }

  function Teardown(g: Gen, clock: nat, pause: bool, env: Env): Torn {
    var paused := PauseRemote(Torn(g.(heartbeat := false), clock, [], []), pause, env);
    var released := ReleaseEdge(ReleaseApi(CancelWorkers(paused, env), env), env);
    var t := ReleaseObservability(AwaitWorkers(released, env), env);
    t.(g := t.g.(closed := t.g.closed.(context := true), executing := false))
  }
}
