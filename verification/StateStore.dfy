/** The state file: what a restarted process makes of it, after a crash anywhere. */
module StateStore {
  import opened Wrappers
  import opened Generation
  import opened GenerationProofs
  import opened SupervisorSpec
  import opened SupervisorProofs

  /** The state file as it may be found, with the two fields as text. */
  datatype File = Missing | Unreadable | Malformed | Stored(desired: string, actual: string, lastError: Error)

  datatype LoadError = CannotOpen | CannotDecode | InvalidDesired | InvalidActual
  datatype Result<+T, +E> = Ok(value: T) | Err(error: E)

  function DesiredText(d: Desired): string {
    match d
    case DesiredRunning => "running"
    case DesiredStopped => "stopped"
  }

  function ActualText(a: Actual): string {
    match a
    case ActualStarting => "starting"
    case ActualRunning => "running"
    case ActualStopping => "stopping"
    case ActualStopped => "stopped"
    case ActualFailed => "failed"
  }

  function ParseActual(text: string): Option<Actual> {
    if text == "starting" then Some(ActualStarting)
    else if text == "running" then Some(ActualRunning)
    else if text == "stopping" then Some(ActualStopping)
    else if text == "stopped" then Some(ActualStopped)
    else if text == "failed" then Some(ActualFailed)
    else None
  }

  function Load(file: File, configured: bool): Result<State, LoadError> {
    if !configured then Ok(State(DesiredStopped, ActualStopped, []))
    else
      match file
      case Missing => Ok(State(DesiredRunning, ActualStopped, []))
      case Unreadable => Err(CannotOpen)
      case Malformed => Err(CannotDecode)
      case Stored(desired, actual, lastError) =>
        if desired != "running" && desired != "stopped" then Err(InvalidDesired)
        else
          match ParseActual(actual)
          case None => Err(InvalidActual)
          case Some(a) => Ok(State(if desired == "running" then DesiredRunning else DesiredStopped, a, lastError))
  }

  function Written(st: State): File { Stored(DesiredText(st.desired), ActualText(st.actual), st.lastError) }

  /** The file that saving makes of two texts; missing ones mean "stopped". */
  function FilledIn(desired: string, actual: string, lastError: Error): File {
    Stored(if desired == "" then "stopped" else desired, if actual == "" then "stopped" else actual, lastError)
  }

  /** The file and the two operations on it. */
  class StateFile {
    const path: string
    var file: File

    constructor (p: string, found: File)
      ensures path == p && file == found
    {
      path, file := p, found;
    }

    method LoadState(configured: bool) returns (r: Result<State, LoadError>)
      ensures r == Load(file, configured)
    {
      var initial := State(DesiredStopped, ActualStopped, []);
      if !configured { return Ok(initial); }
      initial := initial.(desired := DesiredRunning);
      match file {
        case Missing => return Ok(initial);
        case Unreadable => return Err(CannotOpen);
        case Malformed => return Err(CannotDecode);
        case Stored(desired, actual, lastError) =>
          if desired != "running" && desired != "stopped" { return Err(InvalidDesired); }
          var parsed := ParseActual(actual);
          if parsed.None? { return Err(InvalidActual); }
          return Ok(State(if desired == "running" then DesiredRunning else DesiredStopped, parsed.value, lastError));
      }
    }

    /** `ok`: the write reported no error; `replaced`: the file is the new one all the same. */
    method Save(desired: string, actual: string, lastError: Error, ok: bool, replaced: bool) returns (saved: bool)
      modifies this`file
      ensures saved == (ok && path != "")
      ensures file == if path != "" && (ok || replaced) then FilledIn(desired, actual, lastError) else old(file)
    {
      if path == "" { return false; }
      var d, a := desired, actual;
      if d == "" { d := "stopped"; }
      if a == "" { a := "stopped"; }
      if ok || replaced { file := Stored(d, a, lastError); }
      saved := ok;
    }
  }

  /** Unconfigured it starts stopped whatever the file; without a file it starts running; a file is
      accepted exactly if both texts are known, and each other one has an error of its own. */
  lemma {:induction false} LoadExactly(file: File, configured: bool)
    ensures var r := Load(file, configured); var known := {"starting", "running", "stopping", "stopped", "failed"};
            && (!configured ==> r == Ok(State(DesiredStopped, ActualStopped, [])))
            && (configured && file.Missing? ==> r == Ok(State(DesiredRunning, ActualStopped, [])))
            && (configured && file.Stored? ==>
                  && (r.Ok? <==> file.desired in {"running", "stopped"} && file.actual in known)
                  && (r == Err(InvalidDesired) <==> file.desired !in {"running", "stopped"})
                  && (r == Err(InvalidActual) <==> file.desired in {"running", "stopped"} && file.actual !in known)
                  && (r.Ok? ==> r.value.lastError == file.lastError && ActualText(r.value.actual) == file.actual
                                && (r.value.desired.DesiredRunning? <==> file.desired == "running")))
            && (configured && file.Unreadable? ==> r == Err(CannotOpen))
            && (configured && file.Malformed? ==> r == Err(CannotDecode))
  {
  }

  /** What was saved without an error is accepted by loading exactly if both texts are
      known or missing, and then the missing ones are read as stopped. */
  lemma {:induction false} SavedIsAccepted(desired: string, actual: string, lastError: Error)
    ensures Load(FilledIn(desired, actual, lastError), true).Ok? <==>
              (desired == "" || desired == "running" || desired == "stopped")
              && (actual == "" || ParseActual(actual).Some?)
    ensures desired == "" && Load(FilledIn(desired, actual, lastError), true).Ok? ==>
              Load(FilledIn(desired, actual, lastError), true).value.desired.DesiredStopped?
    ensures actual == "" && Load(FilledIn(desired, actual, lastError), true).Ok? ==>
              Load(FilledIn(desired, actual, lastError), true).value.actual.ActualStopped?
  {
    assert "stopped"[0] != "running"[0] && "stopped"[3] != "starting"[3] && |"stopping"| != |"stopped"|;
  }

  /** Loading what was saved gives it back. */
  lemma LoadWritten(st: State)
    ensures Load(Written(st), true) == Ok(st)
  {
    match st.desired
    case DesiredRunning =>
    case DesiredStopped => assert "stopped"[0] != "running"[0];
  }

  /** The file after some writes: the last one that replaced it counts. */
  function FileAfter(file: File, saves: seq<Save>): File {
    if saves == [] then file
    else if saves[|saves| - 1].replaced then Written(saves[|saves| - 1].state)
    else FileAfter(file, saves[..|saves| - 1])
  }

  /** The process that finds this file wants to stay stopped. */
  predicate SaysStopped(file: File) {
    forall configured :: Load(file, configured).Ok? && Load(file, configured).value.desired.DesiredStopped?
  }

  lemma {:induction false} StoppedWritesStay(file: File, saves: seq<Save>, from: nat)
    requires from <= |saves| && SaysStopped(FileAfter(file, saves[..from]))
    requires forall i :: from <= i < |saves| ==> saves[i].state.desired.DesiredStopped?
    ensures SaysStopped(FileAfter(file, saves))
    decreases |saves|
  {
    if |saves| == from {
      assert saves[..from] == saves;
    } else {
      var n := |saves| - 1;
      assert saves[..n][..from] == saves[..from];
      StoppedWritesStay(file, saves[..n], from);
      LoadWritten(saves[n].state);
    }
  }

  /** One process: it loads the file it finds, runs some operations, and dies after
      any number of its writes. */
  datatype Life = Life(configured: bool, ops: seq<Op>, env: Env, cut: nat)

  function FileLeft(d: Deps, file: File, life: Life): File {
    match Load(file, life.configured)
    case Err(_) => file
    case Ok(st) =>
      var saves := Run(d, Initial(st), life.ops, life.env).saves;
      FileAfter(file, if life.cut < |saves| then saves[..life.cut] else saves)
  }

  function FileLeftAfterAll(d: Deps, file: File, lives: seq<Life>): File {
    if lives == [] then file else FileLeft(d, FileLeftAfterAll(d, file, lives[..|lives| - 1]), lives[|lives| - 1])
  }

  ghost predicate NeverStarts(ops: seq<Op>) { forall i :: 0 <= i < |ops| ==> !Starts(ops[i]) }

  /** Once the file says stopped, processes that never start anything leave it so,
      whatever else they do and wherever they crash. */
  lemma {:induction false} OneLifeStaysStopped(d: Deps, file: File, life: Life)
    requires SaysStopped(file) && Wired(life.env) && NeverStarts(life.ops)
    ensures SaysStopped(FileLeft(d, file, life))
  {
    var st := Load(file, life.configured).value;
    InitialInv(d, st);
    RunWritesStopped(d, Initial(st), life.ops, life.env);
    var saves := Run(d, Initial(st), life.ops, life.env).saves;
    var kept := if life.cut < |saves| then saves[..life.cut] else saves;
    assert kept[..0] == [];
    StoppedWritesStay(file, kept, 0);
  }

  lemma {:induction false} AllLivesStayStopped(d: Deps, file: File, lives: seq<Life>)
    requires SaysStopped(file) && forall i :: 0 <= i < |lives| ==> Wired(lives[i].env) && NeverStarts(lives[i].ops)
    ensures SaysStopped(FileLeftAfterAll(d, file, lives))
    decreases |lives|
  {
    if lives != [] {
      var n := |lives| - 1;
      AllLivesStayStopped(d, file, lives[..n]);
      OneLifeStaysStopped(d, FileLeftAfterAll(d, file, lives[..n]), lives[n]);
    }
  }

  /** After a stop that returned nil, the process may go on without starting, crash
      after any later write, be restarted and crash any number of times: until a
      start is asked for, every process comes up with stopped desired and actual. */
  lemma {:induction false} StopIsDurable(
      d: Deps, file: File, s: Sup, env: Env, more: seq<Op>, cut: nat, lives: seq<Life>, configured: bool)
    requires Inv(d, s) && Wired(env) && Stop(s, env).err == [] && NeverStarts(more)
    requires forall i :: 0 <= i < |lives| ==> Wired(lives[i].env) && NeverStarts(lives[i].ops)
    requires |Stop(s, env).s.saves| <= cut <= |Run(d, Stop(s, env).s, more, env).saves|
    ensures var left := FileAfter(file, Run(d, Stop(s, env).s, more, env).saves[..cut]);
            var found := Load(FileLeftAfterAll(d, left, lives), configured);
            found.Ok? && Initial(found.value).st.desired.DesiredStopped?
            && Initial(found.value).st.actual.ActualStopped?
  {
    hide Run, Quiet, Stop;
    var stopped := Stop(s, env).s;
    StopInv(d, s, env);
    StopWrites(s, env);
    RunWritesStopped(d, stopped, more, env);
    var saves := Run(d, stopped, more, env).saves;
    LoadWritten(stopped.saves[|stopped.saves| - 1].state);
    assert saves[..cut][..|stopped.saves|] == stopped.saves;
    StoppedWritesStay(file, saves[..cut], |stopped.saves|);
    AllLivesStayStopped(d, FileAfter(file, saves[..cut]), lives);
  }
}
