/** The tunnel processes behind an edge: every critical section of Start, Stop and
    of the goroutine that waits for a process, and what any interleaving keeps. */
module TunnelSpec {
  import opened Wrappers

  /** How the call of Start that launched a process stands. */
  datatype Starter = Waiting | ReturnedURL(url: string) | ReturnedError

  /** How far the waiting goroutine is: the process runs, its exit is recorded and a
      report may be due, nothing is due, the done channel is closed. */
  datatype Waiter = Watching | MustReport | MayClose | Over

  /** `reports` counts the failure reports, `stopWanted` whether a stop had been
      requested when the exit was recorded. */
  datatype Tunnel = Tunnel(started: bool, expectedStop: bool, exited: bool, stopWanted: bool,
                           starter: Starter, waiter: Waiter, reports: nat)

  /** `failure`: the one-place failure buffer is occupied. */
  datatype Edge = Edge(process: Option<nat>, publicURL: string, failure: bool, tunnels: seq<Tunnel>)

  const NEW_EDGE := Edge(None, "", false, [])
  const NEW_TUNNEL := Tunnel(false, false, false, false, Waiting, Watching, 0)

  predicate ProcessValid(e: Edge) { e.process.Some? ==> e.process.value < |e.tunnels| }

  predicate Running(e: Edge)
    requires ProcessValid(e)
  {
    e.process.Some? && !e.tunnels[e.process.value].exited
  }

  datatype Step =
    | DoLaunch                        // Start, when it launches a process
    | DoPublish(i: nat, url: string)  // a URL arrived, or the grace period passed
    | DoGiveUp(i: nat)                // Start saw the exit
    | DoCancelStart(i: nat)           // Start's context ended: it stops and fails
    | DoStop
    | DoExit(i: nat)
    | DoReport(i: nat)
    | DoClose(i: nat)
    | DoReceive                       // the supervisor takes the failure

  function With(e: Edge, i: nat, t: Tunnel): Edge
    requires i < |e.tunnels|
  {
    e.(tunnels := e.tunnels[i := t])
  }

  function Launch(e: Edge): Edge
    requires ProcessValid(e)
  {
    if Running(e) then e else e.(process := Some(|e.tunnels|), publicURL := "", tunnels := e.tunnels + [NEW_TUNNEL])
  }

  /** Marks the process in use, whichever that is by now. */
  function Stop(e: Edge): Edge
    requires ProcessValid(e)
  {
    if !Running(e) then e else With(e, e.process.value, e.tunnels[e.process.value].(expectedStop := true))
  }

  function Publish(e: Edge, i: nat, url: string): Edge
    requires i < |e.tunnels|
  {
    var t := e.tunnels[i];
    if t.exited then With(e, i, t.(starter := ReturnedError))
    else With(e.(publicURL := url), i, t.(started := true, starter := ReturnedURL(url)))
  }

  function Exit(e: Edge, i: nat): Edge
    requires i < |e.tunnels|
  {
    var t := e.tunnels[i];
    var cleared := if e.process == Some(i) then e.(process := None, publicURL := "") else e;
    With(cleared, i, t.(exited := true, stopWanted := t.expectedStop,
                        waiter := if t.started && !t.expectedStop then MustReport else MayClose))
  }

  /** One critical section; a goroutine that is not at this point does nothing. */
  function Next(e: Edge, s: Step): Edge
    requires ProcessValid(e)
  {
    match s
    case DoLaunch => Launch(e)
    case DoStop => Stop(e)
    case DoReceive => e.(failure := false)
    case DoPublish(i, url) => if i < |e.tunnels| && e.tunnels[i].starter.Waiting? then Publish(e, i, url) else e
    case DoGiveUp(i) =>
      if i < |e.tunnels| && e.tunnels[i].starter.Waiting? && e.tunnels[i].waiter.Over? then
        With(e, i, e.tunnels[i].(starter := ReturnedError))
      else
        e
    case DoCancelStart(i) =>
      if i < |e.tunnels| && e.tunnels[i].starter.Waiting? then
        Stop(With(e, i, e.tunnels[i].(starter := ReturnedError)))
      else
        e
    case DoExit(i) => if i < |e.tunnels| && e.tunnels[i].waiter.Watching? then Exit(e, i) else e
    case DoReport(i) =>
      if i < |e.tunnels| && e.tunnels[i].waiter.MustReport? then
        With(e.(failure := true), i, e.tunnels[i].(waiter := MayClose, reports := e.tunnels[i].reports + 1))
      else e
    case DoClose(i) =>
      if i < |e.tunnels| && e.tunnels[i].waiter.MayClose? then With(e, i, e.tunnels[i].(waiter := Over)) else e
  }

  // ---------------------------------------------------------------- invariant

  /** One tunnel on its own. */
  ghost predicate Sound(t: Tunnel) {
    && (t.started <==> t.starter.ReturnedURL?)
    && (t.exited <==> !t.waiter.Watching?)
    && (t.waiter.MustReport? ==> t.started && !t.stopWanted && t.reports == 0)
    && (t.waiter.Watching? ==> t.reports == 0)
    && (t.waiter.MayClose? || t.waiter.Over? ==> t.reports == if t.started && !t.stopWanted then 1 else 0)
  }

  /** The process in use is the only one whose exit is not recorded, and a non-empty
      URL is the one that its own Start returned. */
  ghost predicate Inv(e: Edge) {
    && ProcessValid(e)
    && (forall i :: 0 <= i < |e.tunnels| ==> Sound(e.tunnels[i]))
    && (forall i :: 0 <= i < |e.tunnels| && !e.tunnels[i].exited ==> e.process == Some(i))
    && (e.process.Some? ==> !e.tunnels[e.process.value].exited)
    && (e.publicURL != "" ==> e.process.Some? && e.tunnels[e.process.value].starter == ReturnedURL(e.publicURL))
  }

  lemma WithInv(e: Edge, i: nat, t: Tunnel)
    requires Inv(e) && i < |e.tunnels| && Sound(t) && t.exited == e.tunnels[i].exited
    requires e.tunnels[i].starter.ReturnedURL? ==> t.starter == e.tunnels[i].starter
    ensures Inv(With(e, i, t))
  {
  }

  lemma LaunchInv(e: Edge)
    requires Inv(e)
    ensures Inv(Launch(e)) && (Launch(e) != e <==> e.process.None?)
  {
  }

  lemma {:induction false} StopInv(e: Edge)
    requires Inv(e)
    ensures Inv(Stop(e))
  {
    if e.process.Some? { WithInv(e, e.process.value, e.tunnels[e.process.value].(expectedStop := true)); }
  }

  lemma PublishInv(e: Edge, i: nat, url: string)
    requires Inv(e) && i < |e.tunnels| && e.tunnels[i].starter.Waiting?
    ensures Inv(Publish(e, i, url))
  {
  }

  lemma ExitInv(e: Edge, i: nat)
    requires Inv(e) && i < |e.tunnels| && e.tunnels[i].waiter.Watching?
    ensures Inv(Exit(e, i)) && e.process == Some(i)
  {
  }

  lemma {:induction false} NextInv(e: Edge, s: Step)
    requires Inv(e)
    ensures Inv(Next(e, s))
  {
    hide Inv, Sound, Launch, Stop, Publish, Exit, With;
    match s
    case DoLaunch => LaunchInv(e);
    case DoStop => StopInv(e);
    case DoReceive => ReceiveInv(e, false);
    case DoPublish(i, url) => if i < |e.tunnels| && e.tunnels[i].starter.Waiting? { PublishInv(e, i, url); }
    case DoGiveUp(i) => if i < |e.tunnels| { OwnStepInv(e, i); }
    case DoCancelStart(i) =>
      if i < |e.tunnels| && e.tunnels[i].starter.Waiting? {
        OwnStepInv(e, i);
        StopInv(With(e, i, e.tunnels[i].(starter := ReturnedError)));
      }
    case DoExit(i) => if i < |e.tunnels| && e.tunnels[i].waiter.Watching? { ExitInv(e, i); }
    case DoReport(i) =>
      if i < |e.tunnels| {
        ReceiveInv(e, true);
        OwnStepInv(e.(failure := true), i);
      }
    case DoClose(i) => if i < |e.tunnels| { OwnStepInv(e, i); }
  }

  lemma ReceiveInv(e: Edge, failure: bool)
    requires Inv(e)
    ensures Inv(e.(failure := failure))
  {
  }

  /** The steps that touch one tunnel only. */
  lemma {:induction false} OwnStepInv(e: Edge, i: nat)
    requires Inv(e) && i < |e.tunnels|
    ensures e.tunnels[i].starter.Waiting? ==> Inv(With(e, i, e.tunnels[i].(starter := ReturnedError)))
    ensures e.tunnels[i].waiter.MustReport? ==>
        Inv(With(e, i, e.tunnels[i].(waiter := MayClose, reports := e.tunnels[i].reports + 1)))
    ensures e.tunnels[i].waiter.MayClose? ==> Inv(With(e, i, e.tunnels[i].(waiter := Over)))
  {
    hide Inv, With;
    assert Sound(e.tunnels[i]) by { TunnelSound(e, i); }
    if e.tunnels[i].starter.Waiting? { WithInv(e, i, e.tunnels[i].(starter := ReturnedError)); }
    if e.tunnels[i].waiter.MustReport? {
      WithInv(e, i, e.tunnels[i].(waiter := MayClose, reports := e.tunnels[i].reports + 1));
    }
    if e.tunnels[i].waiter.MayClose? { WithInv(e, i, e.tunnels[i].(waiter := Over)); }
  }

  lemma TunnelSound(e: Edge, i: nat)
    requires Inv(e) && i < |e.tunnels|
    ensures Sound(e.tunnels[i])
  {
  }

  // ---------------------------------------------------------------- whole runs

  ghost predicate IsRun(run: seq<Edge>, steps: seq<Step>) {
    && |run| == |steps| + 1
    && forall k :: 0 <= k < |steps| ==> ProcessValid(run[k]) && run[k + 1] == Next(run[k], steps[k])
  }

  lemma {:induction false} RunInv(run: seq<Edge>, steps: seq<Step>, k: nat)
    requires IsRun(run, steps) && run[0] == NEW_EDGE && k < |run|
    ensures Inv(run[k])
  {
    hide Next;
    if k > 0 {
      RunInv(run, steps, k - 1);
      NextInv(run[k - 1], steps[k - 1]);
    }
  }

  /** In every run a non-empty public URL belongs to the process in use, was returned
      by its Start, and that process has not exited; and only one process is in use. */
  lemma {:induction false} PublicUrlIsAlive(run: seq<Edge>, steps: seq<Step>, k: nat)
    requires IsRun(run, steps) && run[0] == NEW_EDGE && k < |run|
    ensures run[k].publicURL != "" ==>
              run[k].process.Some? && run[k].process.value < |run[k].tunnels|
              && var t := run[k].tunnels[run[k].process.value];
                 t.starter == ReturnedURL(run[k].publicURL) && t.started && !t.exited
    ensures forall i, j :: 0 <= i < j < |run[k].tunnels| ==> run[k].tunnels[i].exited || run[k].tunnels[j].exited
  {
    RunInv(run, steps, k);
  }

  /** When a process is done, it reported exactly one failure if its Start had
      returned the URL and no stop was requested before the exit, and none otherwise,
      in particular none after its Start returned an error. */
  lemma {:induction false} ExactlyOneReport(run: seq<Edge>, steps: seq<Step>, k: nat, i: nat)
    requires IsRun(run, steps) && run[0] == NEW_EDGE && k < |run| && i < |run[k].tunnels|
    ensures run[k].tunnels[i].reports <= 1
    ensures run[k].tunnels[i].waiter.Over? ==>
              (run[k].tunnels[i].reports == 1
               <==> run[k].tunnels[i].starter.ReturnedURL? && !run[k].tunnels[i].stopWanted)
    ensures run[k].tunnels[i].starter.ReturnedError? ==> run[k].tunnels[i].reports == 0
    ensures !run[k].tunnels[i].exited ==> run[k].tunnels[i].reports == 0
  {
    RunInv(run, steps, k);
    TunnelSound(run[k], i);
  }

  /** What one step may do to a tunnel: outcomes are final, and the URL is returned
      only while the exit is unrecorded and this is the process in use. */
  lemma {:induction false} StepOnTunnel(e: Edge, s: Step, i: nat)
    requires Inv(e) && i < |e.tunnels|
    ensures i < |Next(e, s).tunnels|
    ensures var t, u := e.tunnels[i], Next(e, s).tunnels[i];
            && (!t.starter.Waiting? ==> u.starter == t.starter)
            && (t.starter.Waiting? && u.starter.ReturnedURL? ==>
                  !u.exited && Next(e, s).process == Some(i) && Next(e, s).publicURL == u.starter.url)
            && (t.exited ==> u.exited && u.stopWanted == t.stopWanted)
            && (!t.exited && u.exited ==> u.stopWanted == t.expectedStop)
            && (t.expectedStop ==> u.expectedStop)
            && (u.expectedStop && !t.expectedStop ==> (s.DoStop? || s.DoCancelStart?) && e.process == Some(i))
  {
    if s.DoLaunch? || s.DoStop? || s.DoReceive? {
    } else if s.i == i {
    }
  }

  /** A report leaves a failure to be taken, even if the buffer was full. */
  lemma ReportIsNotLost(e: Edge, s: Step, i: nat)
    requires Inv(e) && i < |e.tunnels|
    ensures i < |Next(e, s).tunnels| && (Next(e, s).tunnels[i].reports > e.tunnels[i].reports ==> Next(e, s).failure)
    ensures e.failure && !Next(e, s).failure ==> s.DoReceive?
  {
  }

  /** In every run: a Start that is cancelled marks a process as stopped that was not yet
      exactly if that is the process in use. */
  lemma {:induction false} CancelMarksExactly(run: seq<Edge>, steps: seq<Step>, k: nat, i: nat, j: nat)
    requires IsRun(run, steps) && run[0] == NEW_EDGE && k < |run| && i < |run[k].tunnels| && j < |run[k].tunnels|
    requires run[k].tunnels[i].starter.Waiting? && !run[k].tunnels[j].expectedStop
    ensures ProcessValid(run[k]) && j < |Next(run[k], DoCancelStart(i)).tunnels|
    ensures Next(run[k], DoCancelStart(i)).tunnels[j].expectedStop <==> run[k].process == Some(j)
  {
    hide IsRun;
    RunInv(run, steps, k);
  }

  /** The cancelled Start of process i requests the stop of another process. */
  ghost predicate HitsAnother(e: Edge, i: nat)
    requires ProcessValid(e)
  {
    exists j: nat :: j != i && j < |e.tunnels| && j < |Next(e, DoCancelStart(i)).tunnels|
                     && StopRequested(e.tunnels[j], Next(e, DoCancelStart(i)).tunnels[j])
  }

  /** Whether a step requests the stop of a process, again or for the first time. */
  predicate StopRequested(before: Tunnel, after: Tunnel) { !before.expectedStop && after.expectedStop }

  /** So a stranger is hit exactly if by then another process is in use, and its stop has
      not been requested anyway. */
  lemma {:induction false} CancelHitsAnotherExactly(run: seq<Edge>, steps: seq<Step>, k: nat, i: nat)
    requires IsRun(run, steps) && run[0] == NEW_EDGE && k < |run| && i < |run[k].tunnels|
    requires run[k].tunnels[i].starter.Waiting?
    ensures ProcessValid(run[k])
    ensures HitsAnother(run[k], i) <==>
              run[k].process.Some? && run[k].process != Some(i) && !run[k].tunnels[run[k].process.value].expectedStop
  {
    hide IsRun;
    RunInv(run, steps, k);
    if run[k].process.Some? && run[k].process != Some(i) {
      var j := run[k].process.value;
      assert Next(run[k], DoCancelStart(i)).tunnels[j].expectedStop;
    }
  }

  ghost predicate EndsByStoppingSuccessor(run: seq<Edge>, steps: seq<Step>) {
    && |steps| > 0 && |run| == |steps| + 1 && steps[|steps| - 1] == DoCancelStart(0)
    && |run[|steps| - 1].tunnels| == 2 && !run[|steps| - 1].tunnels[1].expectedStop
    && |run[|steps|].tunnels| == 2 && run[|steps|].tunnels[1].expectedStop
  }

  /** A Start that is cancelled stops the process in use, which need not be its own:
      its own may have exited and been replaced. */
  lemma {:induction false} CancelledStartHitsSuccessor()
    ensures exists run: seq<Edge>, steps: seq<Step> ::
              IsRun(run, steps) && run[0] == NEW_EDGE && EndsByStoppingSuccessor(run, steps)
  {
    var e1 := Next(NEW_EDGE, DoLaunch);
    var e2 := Next(e1, DoExit(0));
    var e3 := Next(e2, DoLaunch);
    var e4 := Next(e3, DoCancelStart(0));
    var run, steps := [NEW_EDGE, e1, e2, e3, e4], [DoLaunch, DoExit(0), DoLaunch, DoCancelStart(0)];
    assert |e3.tunnels| == 2 && e3.process == Some(1);
    assert IsRun(run, steps);
  }
}
