/** The operation coordinator, one critical section at a time.  Every operation has
    a goroutine of its own; between any two of its steps the others may run. */
module OperationSpec {
  import opened Wrappers

  datatype Kind = RuntimeStart | RuntimeStop | RuntimeRestart | Registration | ConfigApply
  datatype Phase = Queued | Running | Succeeded | Failed | Cancelled

  datatype Snapshot = Snapshot(id: nat, kind: Kind, phase: Phase, startedAt: nat, updatedAt: nat, finishedAt: nat,
                               message: string, error: string)

  /** How far the goroutine of an operation has come.  After `Concluding` it holds
      the snapshot it will record. */
  datatype Stage = Spawned | Acting | Concluded(final: Snapshot) | Released(final: Snapshot) | Recorded

  /** `closes` counts how often the done channel was closed. */
  datatype Operation = Operation(snap: Snapshot, stage: Stage, closes: nat)

  /** `ops` lists all operations ever submitted, operation n at index n - 1;
      `recorded` everything ever appended to the history. */
  datatype Coord = Coord(active: Option<nat>, last: Option<Snapshot>, byID: set<nat>, history: seq<Snapshot>,
                         maxHistory: nat,
                         nextID: nat, ops: seq<Operation>, recorded: seq<Snapshot>)

  predicate Live(p: Phase) { p.Queued? || p.Running? }

  function Initial(maxHistory: nat): Coord { Coord(None, None, {}, [], maxHistory, 0, [], []) }

  predicate ActiveValid(c: Coord) { c.active.Some? ==> c.active.value < |c.ops| }

  datatype Submission = Accepted(snap: Snapshot) | Conflict(active: Snapshot)

  function Submitted(c: Coord, kind: Kind, now: nat): Submission
    requires ActiveValid(c)
  {
    if c.active.Some? && Live(c.ops[c.active.value].snap.phase) then Conflict(c.ops[c.active.value].snap)
    else Accepted(Snapshot(c.nextID + 1, kind, Queued, now, now, 0, "operation queued", ""))
  }

  function Submit(c: Coord, kind: Kind, now: nat): Coord
    requires ActiveValid(c)
  {
    match Submitted(c, kind, now)
    case Conflict(_) => c
    case Accepted(snap) =>
      c.(nextID := snap.id, ops := c.ops + [Operation(snap, Spawned, 0)], active := Some(|c.ops|),
         byID := c.byID + {snap.id})
  }

  function Describe(before: string, phase: string, message: string): string {
    if phase != "" then phase + ": " + message else if message != "" then message else before
  }

  /** A progress report; it is ignored once the operation is over. */
  function Progressed(snap: Snapshot, phase: string, message: string, now: nat): Snapshot {
    if !Live(snap.phase) then snap
    else snap.(phase := Running, message := Describe(snap.message, phase, message), updatedAt := now)
  }

  /** How an action ended, and whether its context was cancelled or ran out. */
  datatype Ending = Ending(failed: bool, cancelledError: bool, contextCancelled: bool, contextOver: bool, error: string)

  function PhaseOf(e: Ending): Phase {
    if e.failed then (if e.cancelledError || e.contextCancelled then Cancelled else Failed)
    else if e.contextOver then Cancelled
    else Succeeded
  }

  function MessageOf(p: Phase): string {
    match p
    case Cancelled => "operation cancelled"
    case Failed => "operation failed"
    case _ => "operation completed"
  }

  function Finished(snap: Snapshot, e: Ending, now: nat): Snapshot {
    snap.(phase := PhaseOf(e), message := MessageOf(PhaseOf(e)), updatedAt := now, finishedAt := now,
          error := if e.failed || e.contextOver then e.error else snap.error)
  }

  function IDs(snaps: seq<Snapshot>): set<nat> { set s | s in snaps :: s.id }

  /** Keeps the newest entries; the operations of the others are forgotten. */
  function Remember(c: Coord, final: Snapshot): Coord {
    var longer := c.history + [final];
    var cut := if |longer| > c.maxHistory then |longer| - c.maxHistory else 0;
    c.(last := Some(final), history := longer[cut..], byID := c.byID - IDs(longer[..cut]),
       recorded := c.recorded + [final])
  }

  function With(c: Coord, i: nat, o: Operation): Coord
    requires i < |c.ops|
  {
    c.(ops := c.ops[i := o])
  }

  function Record(c: Coord, i: nat, final: Snapshot): Coord
    requires i < |c.ops|
  {
    var r := With(Remember(c, final), i, c.ops[i].(stage := Stage.Recorded));
    if c.active == Some(i) then r.(active := None) else r
  }

  // ---------------------------------------------------------------- runs

  datatype Step =
    | DoSubmit(kind: Kind)
    | DoBegin(i: nat)
    | DoReport(i: nat, phase: string, message: string)
    | DoConclude(i: nat, ending: Ending)
    | DoRelease(i: nat)
    | DoRecord(i: nat)

  /** One critical section; a goroutine that is not at this point does nothing. */
  function Next(c: Coord, s: Step, now: nat): Coord
    requires ActiveValid(c)
  {
    if s.DoSubmit? then Submit(c, s.kind, now)
    else if s.i >= |c.ops| then c
    else
      var o := c.ops[s.i];
      match s
      case DoBegin(i) =>
        if o.stage.Spawned? then
          With(c, i, o.(snap := Progressed(o.snap, "running", "operation started", now), stage := Acting))
        else
          c
      case DoReport(i, phase, message) =>
        if o.stage.Spawned? then c else With(c, i, o.(snap := Progressed(o.snap, phase, message, now)))
      case DoConclude(i, ending) =>
        if !o.stage.Acting? || !Live(o.snap.phase) then c
        else With(c, i, o.(snap := Finished(o.snap, ending, now), stage := Concluded(Finished(o.snap, ending, now))))
      case DoRelease(i) =>
        if o.stage.Concluded? then With(c, i, o.(stage := Released(o.stage.final), closes := o.closes + 1)) else c
      case DoRecord(i) =>
        if o.stage.Released? then Record(c, i, o.stage.final) else c
  }

  datatype Timed = Timed(step: Step, now: nat)

  // ---------------------------------------------------------------- queries

  /** Looks an operation up by its number. */
  function Get(c: Coord, id: nat): Option<Snapshot>
  {
    if id in c.byID && 0 < id <= |c.ops| then Some(c.ops[id - 1].snap) else None
  }

  function Current(c: Coord): Option<Snapshot>
    requires ActiveValid(c)
  {
    if c.active.Some? then Some(c.ops[c.active.value].snap) else c.last
  }
}
