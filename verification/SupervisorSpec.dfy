/** The supervisor's transitions as functions of its state and of the environment.
    One transition runs at a time; between two transitions a component may fail, a
    monitor may receive a failure, and a start may be requested. */
module SupervisorSpec {
  import opened Wrappers
  import opened Generation

  datatype Desired = DesiredRunning | DesiredStopped
  datatype Actual = ActualStarting | ActualRunning | ActualStopping | ActualStopped | ActualFailed

  datatype State = State(desired: Desired, actual: Actual, lastError: Error)

  /** One write of the state file.  It may report an error after the file was
      replaced; a successful write always replaced it. */
  datatype Save = Save(state: State, replaced: bool)

  /** `gens` keeps every generation object ever allocated, also those whose
      construction failed; `slot` is the one the supervisor currently refers to. */
  datatype Sup = Sup(st: State, slot: Option<nat>, gens: seq<Gen>, saves: seq<Save>, clock: nat)

  datatype Outcome = Outcome(s: Sup, err: Error)
  datatype Cleanup = Cleanup(s: Sup, remote: Error, local: Error)

  predicate SlotValid(s: Sup) { s.slot.Some? ==> s.slot.value < |s.gens| }

  predicate Executing(s: Sup)
    requires SlotValid(s)
  {
    s.slot.Some? && s.gens[s.slot.value].executing
  }

  function Initial(st: State): Sup { Sup(st.(actual := ActualStopped), None, [], [], 0) }

  function Update(s: Sup, next: State, env: Env): Outcome {
    var a := env(s.clock);
    Outcome(s.(st := next, saves := s.saves + [Save(next, a.ok || a.effect)], clock := s.clock + 1),
            if a.ok then [] else [CallFailed(SaveState)])
  }

  function Fail(s: Sup, desired: Desired, err: Error, env: Env): Outcome {
    var u := Update(s, State(desired, ActualFailed, err), env);
    Outcome(u.s, err + u.err)
  }

  function Demolish(s: Sup, id: nat, pause: bool, env: Env): Cleanup
    requires id < |s.gens|
  {
    var t := Teardown(s.gens[id], s.clock, pause, env);
    Cleanup(s.(gens := s.gens[id := t.g], clock := t.clock), t.remote, t.local)
  }

  /** Construction, with the cleanup of an object that could not be completed. */
  function Create(d: Deps, s: Sup, cfg: Config, env: Env): Outcome
    requires s.slot.None?
  {
    if !d.api then Outcome(s, [NoApiConstructor])
    else
      var w := Construct(d, cfg, s.clock, env);
      if w.err == [] then Outcome(s.(gens := s.gens + [w.g.(built := true)], clock := w.clock), [])
      else
        var t := Teardown(w.g, w.clock, false, env);
        Outcome(s.(gens := s.gens + [t.g], clock := t.clock), w.err + t.remote + t.local)
  }

  function Rollback(s: Sup, startErr: Error, env: Env): Outcome
    requires SlotValid(s)
  {
    match s.slot
    case None => Fail(s, DesiredRunning, startErr, env)
    case Some(id) =>
      var c := Demolish(s, id, true, env);
      var freed := if c.local == [] && Closed(c.s.gens[id]) then c.s.(slot := None) else c.s;
      var u := Update(freed, State(DesiredRunning, ActualFailed, startErr + c.remote + c.local), env);
      Outcome(u.s, startErr + c.remote + c.local + u.err)
  }

  /** Activates the generation just put into the slot, saves `running` and starts
      its monitor; any error rolls everything back. */
  function Launch(d: Deps, s: Sup, id: nat, running: State, env: Env): Outcome
    requires s.slot == Some(id) && id < |s.gens|
  {
    var w := Activate(d, s.gens[id], s.clock, env);
    var active := s.(gens := s.gens[id := w.g], clock := w.clock);
    if w.err != [] then Rollback(active, w.err, env)
    else
      var u := Update(active, running, env);
      if u.err != [] then Rollback(u.s, u.err, env)
      else Outcome(Monitored(u.s, id), [])
  }

  function Watching(s: Sup, id: nat, w: Watch): Sup
    requires id < |s.gens|
  {
    s.(gens := s.gens[id := s.gens[id].(watch := w)])
  }

  function Monitored(s: Sup, id: nat): Sup
    requires id < |s.gens|
  {
    Watching(s, id, s.gens[id].watch.(monitors := s.gens[id].watch.monitors + 1))
  }

  function CreateAndLaunch(d: Deps, s: Sup, cfg: Config, env: Env): Outcome
    requires s.slot.None?
  {
    var made := Create(d, s, cfg, env);
    if made.err != [] then Fail(made.s, DesiredRunning, made.err, env)
    else
      var id := |made.s.gens| - 1;
      Launch(d, made.s.(slot := Some(id)), id, State(made.s.st.desired, ActualRunning, made.s.st.lastError), env)
  }

  function StartLocked(d: Deps, s: Sup, restore: bool, env: Env): Outcome
    requires SlotValid(s)
  {
    var u := Update(s, State(DesiredRunning, ActualStarting, []), env);
    if u.err != [] then
      if restore then Outcome(u.s.(st := s.st), u.err)
      else
        var v := Update(u.s, State(DesiredRunning, ActualFailed, u.err), env);
        Outcome(v.s, u.err + v.err)
    else if Executing(u.s) then Update(u.s, u.s.st.(actual := ActualRunning), env)
    else if u.s.slot.Some? then
      var c := Demolish(u.s, u.s.slot.value, false, env);
      if c.local != [] then Fail(c.s, DesiredRunning, c.local, env)
      else if !Closed(c.s.gens[u.s.slot.value]) then Fail(c.s, DesiredRunning, [StillOwnsResources], env)
      else LoadAndLaunch(d, c.s.(slot := None), env)
    else LoadAndLaunch(d, u.s, env)
  }

  function LoadAndLaunch(d: Deps, s: Sup, env: Env): Outcome
    requires s.slot.None?
  {
    var loaded, valid := env(s.clock), env(s.clock + 1);
    if !loaded.ok then Fail(s.(clock := s.clock + 1), DesiredRunning, [CallFailed(LoadConfig)], env)
    else if !valid.ok then Fail(s.(clock := s.clock + 2), DesiredRunning, [CallFailed(ValidateConfig)], env)
    else CreateAndLaunch(d, s.(clock := s.clock + 2), loaded.cfg, env)
  }

  function Start(d: Deps, s: Sup, env: Env): Outcome
    requires SlotValid(s)
  {
    StartLocked(d, s, true, env)
  }

  function Stop(s: Sup, env: Env): Outcome
    requires SlotValid(s)
  {
    var u := Update(s, State(DesiredStopped, ActualStopping, []), env);
    match s.slot
    case None =>
      var v := Update(u.s, u.s.st.(actual := ActualStopped), env);
      Outcome(v.s, u.err + v.err)
    case Some(id) =>
      var c := Demolish(u.s, id, true, env);
      if c.local == [] && Closed(c.s.gens[id]) then
        var v := Update(c.s.(slot := None), State(DesiredStopped, ActualStopped, c.remote), env);
        Outcome(v.s, u.err + c.remote + v.err)
      else
        var v := Update(c.s, State(DesiredStopped, ActualFailed, c.remote + c.local), env);
        Outcome(v.s, u.err + c.remote + c.local + v.err)
  }

  function Restart(d: Deps, s: Sup, env: Env): Outcome
    requires SlotValid(s)
  {
    var u := Update(s, State(DesiredRunning, ActualStopping, []), env);
    if u.err != [] then Outcome(u.s.(st := s.st), u.err)
    else if s.slot.Some? then
      var c := Demolish(u.s, s.slot.value, true, env);
      if c.local != [] then Fail(c.s, DesiredRunning, c.remote + c.local, env)
      else if !Closed(c.s.gens[s.slot.value]) then Fail(c.s, DesiredRunning, [StillOwnsResources], env)
      else StartLocked(d, c.s.(slot := None), false, env)
    else StartLocked(d, u.s, false, env)
  }

  function Reconcile(d: Deps, s: Sup, cfg: Config, env: Env): Outcome
    requires SlotValid(s)
  {
    if s.st.desired.DesiredStopped? then
      if s.slot.Some? then
        var c := Demolish(s, s.slot.value, false, env);
        if c.local != [] then Fail(c.s, DesiredStopped, c.remote + c.local, env)
        else if !Closed(c.s.gens[s.slot.value]) then Fail(c.s, DesiredStopped, c.remote + [StillOwnsResources], env)
        else Update(c.s.(slot := None), State(s.st.desired, ActualStopped, []), env)
      else Update(s, State(s.st.desired, ActualStopped, []), env)
    else if s.slot.Some? then
      var c := Demolish(s, s.slot.value, true, env);
      if c.local != [] then Fail(c.s, DesiredRunning, c.remote + c.local, env)
      else if !Closed(c.s.gens[s.slot.value]) then Fail(c.s, DesiredRunning, [StillOwnsResources], env)
      else if c.remote != [] then Fail(c.s.(slot := None), DesiredRunning, c.remote, env)
      else Replace(d, c.s.(slot := None), cfg, env)
    else Replace(d, s, cfg, env)
  }

  function Replace(d: Deps, s: Sup, cfg: Config, env: Env): Outcome
    requires s.slot.None?
  {
    var u := Update(s, State(s.st.desired, ActualStopped, []), env);
    if u.err != [] then Fail(u.s, DesiredRunning, u.err, env)
    else CreateAndLaunch(d, u.s, cfg, env)
  }

  function Close(s: Sup, env: Env): Outcome
    requires SlotValid(s)
  {
    match s.slot
    case None => Update(s, s.st.(actual := ActualStopped), env)
    case Some(id) =>
      var c := Demolish(s, id, true, env);
      if c.local == [] && Closed(c.s.gens[id]) then
        var u := Update(c.s.(slot := None), State(s.st.desired, ActualStopped, c.remote), env);
        Outcome(u.s, c.remote + u.err)
      else
        var u := Update(c.s, State(s.st.desired, ActualFailed, c.remote + c.local), env);
        Outcome(u.s, c.remote + c.local + u.err)
  }

  function RequestStart(s: Sup, env: Env): Outcome {
    Update(s, State(DesiredRunning, if s.st.actual.ActualFailed? then ActualStopped else s.st.actual, []), env)
  }

  // ---------------------------------------------------------------- light applies

  /** What a further call leaves in a generation. */
  function Asked(g: Gen, c: Call, a: Answer, clock: nat): Gen {
    Record(g, c, a.ok, a.effect, clock).(registered := g.registered || (c.RegisterCandidate? && (a.ok || a.effect)))
  }

  /** One further call on the generation in use. */
  function Ask(s: Sup, id: nat, c: Call, env: Env): Outcome
    requires id < |s.gens|
  {
    var a := env(s.clock);
    Outcome(s.(gens := s.gens[id := Asked(s.gens[id], c, a, s.clock)], clock := s.clock + 1),
            if a.ok then [] else [CallFailed(c)])
  }

  /** Enabled physical devices of the candidate that the active configuration does
      not have enabled at the same address; the last device with an ID counts. */
  function ChangedPhysical(active: Config, candidate: Config): seq<Device> {
    ChangedAmong(active, candidate.devices)
  }

  function ChangedAmong(active: Config, devices: seq<Device>): seq<Device> {
    if devices == [] then []
    else
      var last := devices[|devices| - 1];
      ChangedAmong(active, devices[..|devices| - 1])
      + if last.enabled && last.physical && !Unchanged(Previous(active.devices, last.id), last) then [last] else []
  }

  function Previous(devices: seq<Device>, id: string): Option<Device> {
    if devices == [] then None
    else if devices[|devices| - 1].id == id then Some(devices[|devices| - 1])
    else Previous(devices[..|devices| - 1], id)
  }

  predicate Unchanged(before: Option<Device>, device: Device) {
    before.Some? && before.value.enabled && before.value.physical && before.value.address == device.address
  }

  /** Runs an optional call on the generation in use. */
  function AskIf(wanted: bool, s: Sup, id: nat, c: Call, env: Env): Outcome
    requires id < |s.gens|
  {
    if wanted then Ask(s, id, c, env) else Outcome(s, [])
  }

  function Adopt(s: Sup, id: nat, cfg: Config, url: string): Sup
    requires id < |s.gens|
  {
    s.(gens := s.gens[id := s.gens[id].(active := cfg, publicURL := url)])
  }

  /** Checks, then registers, then makes the configuration and the URL active. */
  function LightApply(d: Deps, s: Sup, checked: bool, check: Call, cfg: Config, url: string, env: Env): Outcome
    requires SlotValid(s) && Executing(s)
  {
    var id := s.slot.value;
    var u := AskIf(checked, s, id, check, env);
    if u.err != [] then u
    else
      var v := AskIf(d.register, u.s, id, RegisterCandidate, env);
      if v.err != [] then v else Outcome(Adopt(v.s, id, cfg, url), [])
  }

  function ApplyInventory(d: Deps, s: Sup, cfg: Config, env: Env): Outcome
    requires SlotValid(s)
  {
    if !Executing(s) then Outcome(s, [NotRunning])
    else
      var g := s.gens[s.slot.value];
      LightApply(d, s, d.devices && ChangedPhysical(g.active, cfg) != [], ValidateDevices, cfg, g.publicURL, env)
  }

  function ApplyEndpoint(d: Deps, s: Sup, cfg: Config, env: Env): Outcome
    requires SlotValid(s)
  {
    if !Executing(s) then Outcome(s, [NotRunning])
    else
      var g := s.gens[s.slot.value];
      LightApply(d, s, d.verify, VerifyCandidate, cfg, if cfg.manual then cfg.publicURL else g.publicURL, env)
  }

  // ---------------------------------------------------------------- failures

  /** A watched component of a completed generation forwards a failure; the buffer
      keeps one. */
  function ComponentFails(s: Sup, id: nat): Sup {
    if id < |s.gens| && s.gens[id].built then Watching(s, id, s.gens[id].watch.(fatal := true, forwarded := true))
    else s
  }

  /** A monitor takes the buffered failure, before it waits for its turn. */
  function MonitorReceives(s: Sup, id: nat): Sup {
    if id < |s.gens| && s.gens[id].watch.fatal && s.gens[id].watch.monitors > 0 then
      var w := s.gens[id].watch;
      Watching(s, id, w.(fatal := false, monitors := w.monitors - 1, inFlight := w.inFlight + 1))
    else s
  }

  /** The monitor's turn: it acts only on the generation in use. */
  function MonitorHandles(s: Sup, id: nat, env: Env): Sup
    requires SlotValid(s)
  {
    if id < |s.gens| && s.gens[id].watch.inFlight > 0 then
      var w := s.gens[id].watch;
      var r := Watching(s, id, w.(inFlight := w.inFlight - 1));
      if s.slot != Some(id) || !s.gens[id].executing then r
      else
        var c := Demolish(r, id, true, env);
        var freed := if c.local == [] && Closed(c.s.gens[id]) then c.s.(slot := None) else c.s;
        Update(freed, State(DesiredRunning, ActualFailed, [ComponentFailed] + c.remote + c.local), env).s
    else s
  }

  // ---------------------------------------------------------------- runs

  datatype Op =
    | OpStart | OpStop | OpRestart | OpReconcile(cfg: Config) | OpClose | OpRequestStart
    | OpApplyInventory(cfg: Config) | OpApplyEndpoint(cfg: Config)
    | OpComponentFails(id: nat) | OpMonitorReceives(id: nat) | OpMonitorHandles(id: nat)

  function Step(d: Deps, s: Sup, op: Op, env: Env): Sup
    requires SlotValid(s)
  {
    match op
    case OpStart => Start(d, s, env).s
    case OpStop => Stop(s, env).s
    case OpRestart => Restart(d, s, env).s
    case OpReconcile(cfg) => Reconcile(d, s, cfg, env).s
    case OpClose => Close(s, env).s
    case OpRequestStart => RequestStart(s, env).s
    case OpApplyInventory(cfg) => ApplyInventory(d, s, cfg, env).s
    case OpApplyEndpoint(cfg) => ApplyEndpoint(d, s, cfg, env).s
    case OpComponentFails(id) => ComponentFails(s, id)
    case OpMonitorReceives(id) => MonitorReceives(s, id)
    case OpMonitorHandles(id) => MonitorHandles(s, id, env)
  }
}
