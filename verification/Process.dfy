/** The process object and the store, with one method for each critical section. */
module WorkerProcess {
  import opened Wrappers
  import opened ProcessSpec

  class Process {
    var running: bool
    var generation: nat
    var done: Option<nat>
    var workers: seq<Worker>

    ghost predicate Valid()
      reads this
    {
      Inv(Value())
    }

    ghost function Value(): Proc
      reads this
    {
      Proc(running, generation, done, workers)
    }

    constructor ()
      ensures Valid() && Value() == NEW_PROC
    {
      running, generation, done, workers := false, 0, None, [];
    }

    /** The critical section of Start: it answers at once, or makes a new worker. */
    method StartSection() returns (answer: StartAnswer)
      requires Valid()
      modifies this
      ensures Valid() && answer == StartAnswerOf(old(Value())) && Value() == Start(old(Value()))
      ensures answer == Started <==> old(Idle(Value()))
    {
      StartKeeps(Value());
      if running { return AlreadyRunning; }
      if done.Some? && workers[done.value].closes == 0 { return StillStopping; }
      running := true;
      generation := generation + 1;
      done := Some(|workers|);
      workers := workers + [Worker(generation, true, 0, false, false, Waiting)];
      answer := Started;
    }

    /** The critical section of Stop; it hands out the worker to cancel. */
    method StopSection() returns (cancel: Option<nat>)
      requires Valid()
      modifies this
      ensures Valid() && Value() == Stop(old(Value())) && !running
      ensures cancel == if old(running) then done else None
    {
      StopKeeps(Value());
      if !running { return None; }
      cancel := done;
      running := false;
      workers := workers[done.value := workers[done.value].(stopping := true)];
    }

    /** A whole Stop; a second one changes nothing more. */
    method StopProcess()
      requires Valid()
      modifies this
      ensures Valid() && Value() == CancelledProc(old(Value())) && !running
      ensures Stopped(this, old(Value()))
    {
      StopTwice(Value());
      var cancel := StopSection();
      if cancel.Some? { CancelWorker(cancel.value); }
    }

    method CancelWorker(w: nat)
      requires Valid() && w < |workers| && workers[w].stopping
      modifies this`workers
      ensures Valid() && Value() == Cancel(old(Value()), w)
    {
      CancelKeeps(Value(), w);
      workers := workers[w := workers[w].(cancelled := true)];
    }

    /** The end of the call of Start that made worker w: ready, or failed and stopping the
        process. */
    method FinishStart(w: nat, ok: bool) returns (cancel: Option<nat>)
      requires Valid() && w < |workers| && workers[w].starter.Waiting?
      modifies this
      ensures Valid() && Value() == if ok then ReturnStart(old(Value()), w) else FailStart(old(Value()), w)
      ensures cancel == if !ok && old(running) then done else None
    {
      StarterKeeps(Value(), w, if ok then Returned else Failed);
      workers := workers[w := workers[w].(starter := if ok then Returned else Failed)];
      cancel := None;
      if !ok { cancel := StopSection(); }
    }

    /** A worker's end, with the guard that is to spare a successor. */
    method ExitSection(w: nat)
      requires Valid() && w < |workers| && workers[w].live
      modifies this
      ensures Valid() && Value() == Exit(old(Value()), w) && !running
    {
      ExitKeeps(Value(), w);
      if generation == workers[w].generation { running := false; }
      workers := workers[w := workers[w].(live := false, closes := workers[w].closes + 1)];
    }

    /** `patient`: the channel was closed before the caller's context ended. */
    method Wait(patient: bool) returns (ok: bool)
      requires Valid()
      ensures ok ==> Idle(Value())
      ensures patient && Idle(Value()) ==> ok
    {
      ClosedMeansIdle(Value());
      if done.None? { return true; }
      ok := patient && workers[done.value].closes > 0;
    }
  }

  class ProcessStore {
    var processes: map<string, Process>

    ghost predicate Valid()
      reads this, processes.Values
    {
      forall n :: n in processes ==> processes[n].Valid()
    }

    constructor ()
      ensures Valid() && processes == map[]
    {
      processes := map[];
    }

    method Add(name: string, p: Process)
      requires Valid() && p.Valid()
      modifies this
      ensures Valid() && processes == old(processes)[name := p]
    {
      processes := processes[name := p];
    }

    method Get(name: string) returns (p: Option<Process>)
      ensures p == if name in processes then Some(processes[name]) else None
    {
      if name in processes { return Some(processes[name]); }
      p := None;
    }

    method List() returns (list: seq<Process>)
      ensures forall p :: p in list <==> p in processes.Values
    {
      list := [];
      var names := processes.Keys;
      while names != {}
        invariant names <= processes.Keys
        invariant forall p :: p in list <==> exists n :: n in processes && n !in names && processes[n] == p
        decreases names
      {
        ghost var before, listed := names, list;
        var n :| n in names;
        list := list + [processes[n]];
        names := names - {n};
        Listed(processes, before, n, listed);
      }
    }

    /** Nothing of the store is running afterwards, and every live worker of it has
        been told to stop. */
    method StopAll()
      requires Valid()
      modifies processes.Values
      ensures Valid()
      ensures forall p :: p in processes.Values ==> Stopped(p, old(p.Value()))
    {
      hide Inv, CancelledProc;
      var list := List();
      ghost var all := processes.Values;
      for k := 0 to |list|
        invariant Valid() && processes == old(processes)
        invariant forall p :: p in all ==> p.Value() == old(p.Value()) || Stopped(p, old(p.Value()))
        invariant forall p :: p in all && p in list[..k] ==> Stopped(p, old(p.Value()))
      {
        assert list[..k + 1] == list[..k] + [list[k]];
        list[k].StopProcess();
      }
      assert list[..|list|] == list;
    }

    /** `patience` says of each process whether its wait could be sat out. */
    method WaitAll(patience: Process -> bool) returns (ok: bool)
      requires Valid()
      ensures ok ==> forall p :: p in processes.Values ==> Idle(p.Value())
      ensures (forall p :: p in processes.Values ==> patience(p) && Idle(p.Value())) ==> ok
    {
      var list := List();
      ok := true;
      for k := 0 to |list|
        invariant ok ==> forall p :: p in list[..k] ==> Idle(p.Value())
        invariant (forall p :: p in list[..k] ==> patience(p) && Idle(p.Value())) ==> ok
      {
        assert list[k] in list && list[k] in processes.Values;
        var one := list[k].Wait(patience(list[k]));
        assert list[..k + 1] == list[..k] + [list[k]];
        ok := ok && one;
      }
      assert list[..|list|] == list;
    }
  }

  lemma Listed(processes: map<string, Process>, names: set<string>, n: string, list: seq<Process>)
    requires n in names && names <= processes.Keys
    requires forall p :: p in list <==> exists m :: m in processes && m !in names && processes[m] == p
    ensures forall p :: p in list + [processes[n]]
                <==> exists m :: m in processes && m !in names - {n} && processes[m] == p
  {
    forall p
      ensures p in list + [processes[n]] <==> exists m :: m in processes && m !in names - {n} && processes[m] == p
    {
      if p == processes[n] { assert n !in names - {n}; }
      if p in list { var m :| m in processes && m !in names && processes[m] == p; assert m !in names - {n}; }
    }
  }

  /** What a whole Stop does to a process: told to stop, and cancelled. */
  ghost function CancelledProc(p: Proc): Proc
    requires DoneValid(p)
  {
    if p.running && p.done.Some? then Cancel(Stop(p), p.done.value) else p
  }

  ghost predicate Stopped(p: Process, before: Proc)
    reads p
  {
    Inv(before) && p.Value() == CancelledProc(before) && !p.running && DoneValid(p.Value())
    && CancelledProc(p.Value()) == p.Value()
  }

  lemma StopTwice(p: Proc)
    requires Inv(p)
    ensures Inv(CancelledProc(p)) && !CancelledProc(p).running && DoneValid(CancelledProc(p))
    ensures CancelledProc(CancelledProc(p)) == CancelledProc(p)
  {
  }
}
