/** The restart protocol between the dashboard and the attached host commands: a
    configuration, a request and a result file, read and replaced one at a time by
    any number of processes, and the service that is to be brought up to date. */
module RestartSpec {
  import opened Wrappers

  /** A configuration: what the service depends on, and the rest.  A digest names the
      whole of it, a fingerprint its service part as seen from one host. */
  datatype Config = Config(service: nat, rest: nat)
  datatype Fingerprint = Fingerprint(service: nat, host: nat)

  datatype Request = Request(id: nat, wanted: Config, force: bool)
  datatype Result = Result(id: nat, success: bool, fingerprint: Option<Fingerprint>)

  /** Where the loop of one attached command stands.  `since` is the log entry with
      which it took the request up, `seen` the one with which the service matched. */
  datatype Task =
    | Idle
    | HasRequest(req: Request)
    | Loading(req: Request, since: nat)
    | Resolving(req: Request, since: nat)
    | Checking(req: Request, since: nat, host: nat)
    | Restarting(req: Request, since: nat, host: nat)
    | Awaiting(req: Request, since: nat, host: nat)
    | Verifying(req: Request, since: nat, host: nat)
    | Answering(req: Request, since: nat, result: Result, seen: nat, fatal: bool)
    | Ended

  /** A dashboard that finds out whether its restart was applied: three reads.  `asked`
      is the number of requests there were at the first one. */
  datatype Check =
    | Asking
    | HasAsked(req: Request, asked: nat)
    | HasResult(req: Request, asked: nat, result: Result)
    | Answered(applied: bool)

  datatype Event =
    | Acted(f: nat, id: nat, readable: bool)
    | Matched(f: nat, id: nat, cfg: Config, service: Config)
    | Wrote(f: nat, result: Result, since: nat, seen: nat)

  datatype World = World(config: Option<Config>, request: Option<Request>, result: Option<Result>,
                         service: Option<Config>,
                         requests: seq<Request>, tasks: seq<Task>, checks: seq<Check>, log: seq<Event>)

  function Start(config: Option<Config>, service: Option<Config>): World {
    World(config, None, None, service, [], [], [], [])
  }

  /** `ok`: the operation succeeded; `effect`: a failed write replaced the file all the
      same; `owned`: the command still owns the coordinator lease. */
  datatype Answer = Answer(ok: bool, effect: bool, owned: bool, host: nat)

  datatype Step =
    | DoConfigure(config: Option<Config>)
    | DoService(service: Option<Config>)
    | DoRequest(wanted: Config, force: bool)
    | DoAttach
    | DoTask(f: nat, a: Answer)
    | DoOpen
    | DoCheck(d: nat, a: Answer)

  predicate Matches(service: Option<Config>, cfg: Config) { service.Some? && service.value.service == cfg.service }

  function At(w: World, f: nat, t: Task): World
    requires f < |w.tasks|
  {
    w.(tasks := w.tasks[f := t])
  }

  function Noted(w: World, e: Event): World { w.(log := w.log + [e]) }

  function Failure(id: nat): Result { Result(id, false, None) }

  /** Takes the request up unless the result file already answers it. */
  function ReadResult(w: World, f: nat, req: Request, readable: bool): World
    requires f < |w.tasks|
  {
    if readable && w.result.Some? && w.result.value.id == req.id then At(w, f, Idle)
    else At(Noted(w, Acted(f, req.id, readable)), f, Loading(req, |w.log|))
  }

  /** The configuration must still be the one that the request names. */
  function LoadConfig(w: World, f: nat, req: Request, since: nat, ok: bool): World
    requires f < |w.tasks|
  {
    if !ok || w.config.None? then At(w, f, Answering(req, since, Failure(req.id), 0, true))
    else if w.config.value != req.wanted then At(w, f, Answering(req, since, Failure(req.id), 0, false))
    else At(w, f, Resolving(req, since))
  }

  /** Asks the manager whether the service matches the snapshot; a match is success. */
  function AskManager(w: World, f: nat, req: Request, since: nat, host: nat, ok: bool, otherwise: Task): World
    requires f < |w.tasks|
  {
    if ok && Matches(w.service, req.wanted) then
      At(Noted(w, Matched(f, req.id, req.wanted, w.service.value)), f,
         Answering(req, since, Result(req.id, true, Some(Fingerprint(req.wanted.service, host))), |w.log|, false))
    else At(w, f, otherwise)
  }

  function WriteResult(w: World, f: nat, t: Task, a: Answer): World
    requires f < |w.tasks| && t.Answering?
  {
    var written := if a.ok || a.effect then Noted(w.(result := Some(t.result)), Wrote(f, t.result, t.since, t.seen))
        else w;
    At(written, f, if a.ok && !t.fatal then Idle else Ended)
  }

  /** One operation of one attached command. */
  function Advance(w: World, f: nat, a: Answer): World
    requires f < |w.tasks|
  {
    match w.tasks[f]
    case Idle =>
      if !a.owned then At(w, f, Ended) else if a.ok && w.request.Some? then At(w, f, HasRequest(w.request.value)) else w
    case HasRequest(req) => ReadResult(w, f, req, a.ok)
    case Loading(req, since) => LoadConfig(w, f, req, since, a.ok)
    case Resolving(req, since) =>
      if !a.ok then At(w, f, Answering(req, since, Failure(req.id), 0, false))
      else At(w, f, if req.force then Restarting(req, since, a.host) else Checking(req, since, a.host))
    case Checking(req, since, host) => AskManager(w, f, req, since, host, a.ok, Restarting(req, since, host))
    case Restarting(req, since, host) =>
      if a.ok then At(w.(service := Some(req.wanted)), f, Awaiting(req, since, host))
      else At(w, f, Answering(req, since, Failure(req.id), 0, true))
    case Awaiting(req, since, host) =>
      At(w, f, if a.ok then Verifying(req, since, host) else Answering(req, since, Failure(req.id), 0, true))
    case Verifying(req, since, host) =>
      AskManager(w, f, req, since, host, a.ok, Answering(req, since, Failure(req.id), 0, true))
    case Answering(_, _, _, _, _) => WriteResult(w, f, w.tasks[f], a)
    case Ended => w
  }

  /** One read of a dashboard's check; an unreadable file means "not applied". */
  function Look(w: World, c: Check, a: Answer): Check {
    match c
    case Asking => if a.ok && w.request.Some? then HasAsked(w.request.value, |w.requests|) else Answered(false)
    case HasAsked(req, asked) =>
      if a.ok && w.result.Some? && w.result.value.success && w.result.value.id == req.id then
        HasResult(req, asked, w.result.value)
      else
        Answered(false)
    case HasResult(req, _, result) =>
      Answered(a.ok && w.config.Some? && result.fingerprint == Some(Fingerprint(w.config.value.service, a.host)))
    case Answered(_) => c
  }

  function Next(w: World, s: Step): World {
    match s
    case DoConfigure(config) => w.(config := config)
    case DoService(service) => w.(service := service)
    case DoRequest(wanted, force) =>
      var req := Request(|w.requests| + 1, wanted, force);
      w.(request := Some(req), requests := w.requests + [req])
    case DoAttach => w.(tasks := w.tasks + [Idle])
    case DoTask(f, a) => if f < |w.tasks| then Advance(w, f, a) else w
    case DoOpen => w.(checks := w.checks + [Asking])
    case DoCheck(d, a) => if d < |w.checks| then w.(checks := w.checks[d := Look(w, w.checks[d], a)]) else w
  }

  function Run(w: World, steps: seq<Step>): World {
    if steps == [] then w else Next(Run(w, steps[..|steps| - 1]), steps[|steps| - 1])
  }
}
