/** Worker processes: what each critical section of Start, Stop and a worker's exit
    does, what any interleaving of them keeps, and what a completed wait means. */
module ProcessSpec {
  import opened Wrappers

  /** How the call of Start that created a worker stands. */
  datatype Starter = Waiting | Returned | Failed

  /** One worker goroutine, from the section of Start that creates it to the one with
      which it ends, and the call of Start.  `closes` counts how often its done channel
      was closed. */
  datatype Worker = Worker(generation: nat, live: bool, closes: nat, stopping: bool, cancelled: bool, starter: Starter)

  /** `done` is the worker whose channel the process refers to. */
  datatype Proc = Proc(running: bool, generation: nat, done: Option<nat>, workers: seq<Worker>)

  datatype StartAnswer = AlreadyRunning | StillStopping | Started

  predicate DoneValid(p: Proc) { p.done.Some? ==> p.done.value < |p.workers| }

  predicate DoneClosed(p: Proc)
    requires DoneValid(p)
  {
    p.done.Some? && p.workers[p.done.value].closes > 0
  }

  const NEW_PROC := Proc(false, 0, None, [])

  function StartAnswerOf(p: Proc): StartAnswer
    requires DoneValid(p)
  {
    if p.running then AlreadyRunning else if p.done.Some? && !DoneClosed(p) then StillStopping else Started
  }

  function Start(p: Proc): Proc
    requires DoneValid(p)
  {
    if StartAnswerOf(p) != Started then p
    else Proc(true, p.generation + 1, Some(|p.workers|),
              p.workers + [Worker(p.generation + 1, true, 0, false, false, Waiting)])
  }

  /** Stop gives up the process at once; the cancellation follows outside the lock. */
  function Stop(p: Proc): Proc
    requires DoneValid(p)
  {
    if !p.running then p
    else if p.done.None? then p.(running := false)
    else p.(running := false, workers := p.workers[p.done.value := p.workers[p.done.value].(stopping := true)])
  }

  function Cancel(p: Proc, w: nat): Proc {
    if w < |p.workers| && p.workers[w].stopping then p.(workers := p.workers[w := p.workers[w].(cancelled := true)])
    else p
  }

  function StartedBy(p: Proc, w: nat, starter: Starter): Proc
    requires w < |p.workers|
  {
    p.(workers := p.workers[w := p.workers[w].(starter := starter)])
  }

  /** The call of Start that created worker w has seen it ready. */
  function ReturnStart(p: Proc, w: nat): Proc {
    if w < |p.workers| && p.workers[w].starter.Waiting? then StartedBy(p, w, Returned) else p
  }

  /** It has seen an error, or its caller gave up: it stops the process, whichever
      worker that has by now. */
  function FailStart(p: Proc, w: nat): Proc
    requires DoneValid(p)
  {
    if w < |p.workers| && p.workers[w].starter.Waiting? then Stop(StartedBy(p, w, Failed)) else p
  }

  function Exit(p: Proc, w: nat): Proc {
    if w >= |p.workers| || !p.workers[w].live then p
    else
      p.(running := p.running && p.generation != p.workers[w].generation,
         workers := p.workers[w := p.workers[w].(live := false, closes := p.workers[w].closes + 1)])
  }

  // ---------------------------------------------------------------- one process

  predicate Last(p: Proc, w: nat) { w + 1 == |p.workers| }

  /** Only the newest worker can be live; a running process has a live worker of its
      own generation; one that is live without the process running was stopped. */
  ghost predicate Inv(p: Proc) {
    && p.generation == |p.workers|
    && p.done == (if |p.workers| == 0 then None else Some(|p.workers| - 1))
    && (forall w :: 0 <= w < |p.workers| ==>
         p.workers[w].generation == w + 1 && p.workers[w].closes == (if p.workers[w].live then 0 else 1))
    && (forall w :: 0 <= w < |p.workers| && p.workers[w].live ==> Last(p, w) && (p.running || p.workers[w].stopping))
    && (p.running ==> |p.workers| > 0 && p.workers[|p.workers| - 1].live && !p.workers[|p.workers| - 1].stopping)
  }

  ghost predicate Idle(p: Proc) { forall w :: 0 <= w < |p.workers| ==> !p.workers[w].live }

  lemma {:induction false} StartKeeps(p: Proc)
    requires Inv(p)
    ensures Inv(Start(p))
    ensures StartAnswerOf(p) == Started <==> Idle(p)
    ensures StartAnswerOf(p) == AlreadyRunning ==> exists w :: 0 <= w < |p.workers| && p.workers[w].live
  {
    var n := |p.workers|;
    assert forall w: nat :: w < n && p.workers[w].live ==> Last(p, w);
    assert n > 0 && p.workers[n - 1].live ==> StartAnswerOf(p) != Started;
  }

  lemma StopKeeps(p: Proc)
    requires Inv(p)
    ensures Inv(Stop(p)) && !Stop(p).running
    ensures forall w :: 0 <= w < |p.workers| && p.workers[w].live ==> Stop(p).workers[w].stopping
  {
  }

  /** A worker that exits always finds its own generation current, so the process
      is never left running without a worker. */
  lemma {:induction false} ExitKeeps(p: Proc, w: nat)
    requires Inv(p)
    ensures Inv(Exit(p, w))
    ensures w < |p.workers| && p.workers[w].live ==>
              p.generation == p.workers[w].generation && !Exit(p, w).running && Idle(Exit(p, w))
  {
    if w < |p.workers| && p.workers[w].live { assert Last(p, w); }
  }

  lemma CancelKeeps(p: Proc, w: nat)
    requires Inv(p)
    ensures Inv(Cancel(p, w))
  {
  }

  lemma StarterKeeps(p: Proc, w: nat, starter: Starter)
    requires Inv(p) && w < |p.workers|
    ensures Inv(StartedBy(p, w, starter))
  {
  }

  lemma {:induction false} FailKeeps(p: Proc, w: nat)
    requires Inv(p)
    ensures DoneValid(p) && Inv(FailStart(p, w)) && Inv(ReturnStart(p, w))
  {
    hide Inv, Stop;
    assert DoneValid(p) by { DoneIsValid(p); }
    if w < |p.workers| {
      StarterKeeps(p, w, Failed);
      StarterKeeps(p, w, Returned);
      DoneIsValid(StartedBy(p, w, Failed));
      StopKeeps(StartedBy(p, w, Failed));
    }
  }

  lemma DoneIsValid(p: Proc)
    requires Inv(p)
    ensures DoneValid(p)
  {
  }

  /** At most one worker of a process is live, and running means that it is of the
      current generation. */
  lemma {:induction false} OneWorker(p: Proc, v: nat, w: nat)
    requires Inv(p) && v < |p.workers| && w < |p.workers| && p.workers[v].live && p.workers[w].live
    ensures v == w && p.workers[w].generation == p.generation && p.done == Some(w)
  {
    assert Last(p, v) && Last(p, w);
  }

  /** Waiting looks at one channel, but when that is closed no worker is left. */
  lemma {:induction false} ClosedMeansIdle(p: Proc)
    requires Inv(p)
    ensures p.done.None? || DoneClosed(p) <==> Idle(p)
  {
    forall w | 0 <= w < |p.workers| && p.workers[w].live ensures !(p.done.None? || DoneClosed(p)) { assert Last(p, w); }
  }

  // ---------------------------------------------------------------- the store

  /** All processes ever made, and the names under which the store has them. */
  datatype Store = Store(procs: seq<Proc>, names: map<string, nat>)

  datatype Step = DoAdd(name: string) | DoStart(i: nat) | DoStop(i: nat) | DoCancel(i: nat, w: nat) | DoExit(i: nat,
      w: nat)
                | DoReturn(i: nat, w: nat) | DoFail(i: nat, w: nat)

  predicate StoreValid(s: Store) {
    (forall i :: 0 <= i < |s.procs| ==> DoneValid(s.procs[i])) && (forall n :: n in s.names ==> s.names[n] < |s.procs|)
  }

  function Next(s: Store, step: Step): Store
    requires StoreValid(s)
  {
    if step.DoAdd? then Store(s.procs + [NEW_PROC], s.names[step.name := |s.procs|])
    else if step.i >= |s.procs| then s
    else
      var p := s.procs[step.i];
      var q := match step
        case DoStart(_) => Start(p)
        case DoStop(_) => Stop(p)
        case DoCancel(_, w) => Cancel(p, w)
        case DoExit(_, w) => Exit(p, w)
        case DoReturn(_, w) => ReturnStart(p, w)
        case DoFail(_, w) => FailStart(p, w)
        case DoAdd(_) => p;
      s.(procs := s.procs[step.i := q])
  }

  ghost predicate StoreInv(s: Store) {
    (forall i :: 0 <= i < |s.procs| ==> Inv(s.procs[i])) && (forall n :: n in s.names ==> s.names[n] < |s.procs|)
  }

  lemma StoreInvValid(s: Store)
    requires StoreInv(s)
    ensures StoreValid(s)
  {
  }

  lemma {:induction false} NextInv(s: Store, step: Step)
    requires StoreInv(s)
    ensures StoreValid(s) && StoreInv(Next(s, step))
  {
    hide Start, Stop, Cancel, Exit, ReturnStart, FailStart, Inv;
    assert StoreValid(s) by { StoreInvValid(s); }
    if step.DoAdd? {
      assert Inv(NEW_PROC) by { NewInv(); }
    } else if step.i < |s.procs| {
      StepInv(s.procs[step.i], step);
    }
  }

  lemma NewInv()
    ensures Inv(NEW_PROC)
  {
  }

  lemma {:induction false} StepInv(p: Proc, step: Step)
    requires Inv(p)
    ensures DoneValid(p) && Inv(Start(p)) && Inv(Stop(p))
    ensures step.DoCancel? || step.DoExit? ==> Inv(Cancel(p, step.w)) && Inv(Exit(p, step.w))
    ensures step.DoReturn? || step.DoFail? ==> Inv(ReturnStart(p, step.w)) && Inv(FailStart(p, step.w))
  {
    hide Start, Stop, Cancel, Exit, ReturnStart, FailStart;
    StartKeeps(p);
    StopKeeps(p);
    if step.DoCancel? || step.DoExit? {
      CancelKeeps(p, step.w);
      ExitKeeps(p, step.w);
    }
    if step.DoReturn? || step.DoFail? { FailKeeps(p, step.w); }
  }

  /** A run in which every state follows from the one before by some step. */
  ghost predicate IsRun(run: seq<Store>, steps: seq<Step>) {
    && |run| == |steps| + 1
    && forall k :: 0 <= k < |steps| ==> StoreValid(run[k]) && run[k + 1] == Next(run[k], steps[k])
  }

  lemma {:induction false} RunInv(run: seq<Store>, steps: seq<Step>, k: nat)
    requires IsRun(run, steps) && StoreInv(run[0]) && k < |run|
    ensures StoreInv(run[k])
  {
    if k > 0 {
      RunInv(run, steps, k - 1);
      NextInv(run[k - 1], steps[k - 1]);
    }
  }

  const EMPTY_STORE := Store([], map[])

  /** In every state of every interleaving: one live worker at most, running only with
      a live worker of the current generation, and each channel closed once, at the end. */
  lemma {:induction false} AnyInterleaving(run: seq<Store>, steps: seq<Step>, k: nat, i: nat, v: nat, w: nat)
    requires IsRun(run, steps) && run[0] == EMPTY_STORE && k < |run| && i < |run[k].procs|
    requires v < |run[k].procs[i].workers| && w < |run[k].procs[i].workers|
    ensures var p := run[k].procs[i];
            && (p.workers[v].live && p.workers[w].live ==> v == w)
            && (p.running ==>
                 exists x :: 0 <= x < |p.workers| && p.workers[x].live && p.workers[x].generation == p.generation)
            && p.workers[v].closes == (if p.workers[v].live then 0 else 1)
            && (p.workers[v].live && !p.running ==> p.workers[v].stopping)
  {
    hide Next, IsRun;
    RunInv(run, steps, k);
    var p := run[k].procs[i];
    assert Inv(p);
    if p.workers[v].live && p.workers[w].live { OneWorker(p, v, w); }
  }

  /** Without starts and additions an idle process stays idle and keeps its channel. */
  lemma {:induction false} StaysIdle(run: seq<Store>, steps: seq<Step>, j: nat, k: nat, i: nat)
    requires IsRun(run, steps) && StoreInv(run[0]) && j <= k < |run|
    requires forall step :: step in steps ==> !step.DoStart? && !step.DoAdd?
    requires i < |run[j].procs| && Idle(run[j].procs[i])
    ensures i < |run[k].procs| && Idle(run[k].procs[i])
    decreases k - j
  {
    if j < k {
      StaysIdle(run, steps, j, k - 1, i);
      assert steps[k - 1] in steps;
    }
  }

  lemma {:induction false} SameNames(run: seq<Store>, steps: seq<Step>, k: nat)
    requires IsRun(run, steps) && k < |run| && forall step :: step in steps ==> !step.DoAdd?
    ensures run[k].names == run[0].names && |run[k].procs| == |run[0].procs|
  {
    if k > 0 {
      SameNames(run, steps, k - 1);
      assert steps[k - 1] in steps;
    }
  }

  /** What a wait for process i saw: the channel at one moment, closed at a later one. */
  ghost predicate Waited(run: seq<Store>, i: nat, read: nat, returned: nat) {
    && read <= returned < |run| && i < |run[read].procs| && i < |run[returned].procs|
    && var done := run[read].procs[i].done;
       done.None? || (done.value < |run[returned].procs[i].workers|
                      && run[returned].procs[i].workers[done.value].closes > 0)
  }

  /** The waits of one WaitAll over the processes that were listed at the start. */
  ghost predicate WaitedForAll(run: seq<Store>) {
    |run| > 0 && forall n :: n in run[0].names ==> exists read, returned :: Waited(run, run[0].names[n], read, returned)
  }

  /** Whatever else is stopped, cancelled or exits meanwhile: when every wait came
      back without an error and nothing was started, no worker in the store is left. */
  lemma {:induction false} NilWaitLeavesNoWorker(run: seq<Store>, steps: seq<Step>, name: string)
    requires IsRun(run, steps) && StoreInv(run[0]) && WaitedForAll(run)
    requires forall step :: step in steps ==> !step.DoStart? && !step.DoAdd?
    requires name in run[|steps|].names
    ensures run[|steps|].names[name] < |run[|steps|].procs| && Idle(run[|steps|].procs[run[|steps|].names[name]])
  {
    hide Inv, Idle, Next;
    SameNames(run, steps, |steps|);
    var i := run[0].names[name];
    var read, returned :| Waited(run, i, read, returned);
    RunInv(run, steps, read);
    RunInv(run, steps, returned);
    WaitedMeansIdle(run, steps, i, read, returned);
    StaysIdle(run, steps, returned, |steps|, i);
  }

  lemma {:induction false} WaitedMeansIdle(run: seq<Store>, steps: seq<Step>, i: nat, read: nat, returned: nat)
    requires IsRun(run, steps) && StoreInv(run[0]) && Waited(run, i, read, returned)
    requires StoreInv(run[read]) && StoreInv(run[returned])
    requires forall step :: step in steps ==> !step.DoStart? && !step.DoAdd?
    ensures Idle(run[returned].procs[i])
  {
    hide IsRun, Next;
    SameDone(run, steps, i, read, returned);
    ClosedMeansIdle(run[returned].procs[i]);
  }

  lemma {:induction false} SameDone(run: seq<Store>, steps: seq<Step>, i: nat, j: nat, k: nat)
    requires IsRun(run, steps) && j <= k < |run| && i < |run[j].procs|
    requires forall step :: step in steps ==> !step.DoStart? && !step.DoAdd?
    ensures i < |run[k].procs| && run[k].procs[i].done == run[j].procs[i].done
    decreases k - j
  {
    if j < k {
      SameDone(run, steps, i, j, k - 1);
      assert steps[k - 1] in steps;
    }
  }

  /** The condition is needed: a start between the wait and its return leaves a live
      worker behind. */
  lemma {:induction false} StartDuringWait()
    ensures exists run: seq<Store>, steps: seq<Step> ::
              IsRun(run, steps) && StoreInv(run[0]) && WaitedForAll(run) && "ns" in run[|steps|].names
                                 && run[|steps|].names["ns"] < |run[|steps|].procs|
                                 && !Idle(run[|steps|].procs[run[|steps|].names["ns"]])
  {
    var s := Store([NEW_PROC], map["ns" := 0]);
    var run, steps := [s, Next(s, DoStart(0))], [DoStart(0)];
    assert Waited(run, 0, 0, 0);
    assert Start(NEW_PROC).workers[0].live;
    assert IsRun(run, steps) && WaitedForAll(run);
  }

  // ---------------------------------------------------------------- a start that fails late

  /** The failure of the Start behind worker w tells worker v to stop. */
  predicate Marks(p: Proc, w: nat, v: nat)
    requires DoneValid(p)
  {
    v < |p.workers| && v < |FailStart(p, w).workers| && !p.workers[v].stopping && FailStart(p, w).workers[v].stopping
  }

  /** In every interleaving: a Start that fails stops a worker of another generation than
      its own exactly if the process is running by then and of another generation; it is
      the current worker that is stopped, and no other. */
  lemma {:induction false} LateStopExactly(run: seq<Store>, steps: seq<Step>, k: nat, i: nat, w: nat)
    requires IsRun(run, steps) && run[0] == EMPTY_STORE && k < |run| && i < |run[k].procs|
    requires w < |run[k].procs[i].workers| && run[k].procs[i].workers[w].starter.Waiting?
    ensures var p := run[k].procs[i]; var g := p.workers[w].generation;
            && DoneValid(p)
            && ((exists v: nat :: Marks(p, w, v) && p.workers[v].generation != g) <==> p.running && p.generation != g)
            && (forall v: nat ::
                Marks(p, w, v) <==> p.running && v < |p.workers| && p.workers[v].generation == p.generation)
  {
    hide Next, IsRun;
    RunInv(run, steps, k);
    LateStopMarks(run[k].procs[i], w);
  }

  lemma {:induction false} LateStopMarks(p: Proc, w: nat)
    requires Inv(p) && w < |p.workers| && p.workers[w].starter.Waiting?
    ensures DoneValid(p)
    ensures forall v: nat :: Marks(p, w, v) <==> p.running && v < |p.workers| && p.workers[v].generation == p.generation
    ensures (exists v: nat :: Marks(p, w, v) && p.workers[v].generation != p.workers[w].generation)
            <==> p.running && p.generation != p.workers[w].generation
  {
    forall v: nat
      ensures Marks(p, w, v) <==> p.running && v < |p.workers| && p.workers[v].generation == p.generation
    {
    }
    if p.running { assert Marks(p, w, |p.workers| - 1); }
  }

  ghost predicate StopsSuccessor(before: Store, after: Store) {
    && |before.procs| == 1 && |after.procs| == 1
    && |before.procs[0].workers| == 2 && |after.procs[0].workers| == 2
    && before.procs[0].workers[0].starter.Waiting? && after.procs[0].workers[0].starter.Failed?
    && before.procs[0].workers[1].live && !before.procs[0].workers[1].stopping && after.procs[0].workers[1].stopping
  }

  /** It happens: the first worker ends before its Start has seen the error, a second Start
      makes a new worker, and then the first one stops that. */
  lemma {:induction false} LateStopHitsSuccessor()
    ensures exists run: seq<Store>, steps: seq<Step> ::
              IsRun(run, steps) && run[0] == EMPTY_STORE && |steps| == 5 && StopsSuccessor(run[4], run[5])
  {
    hide Inv;
    var run, steps := [EMPTY_STORE], [];
    run, steps := Onward(run, steps, DoAdd("ns"));
    run, steps := Onward(run, steps, DoStart(0));
    assert run[2].procs[0] == Proc(true, 1, Some(0), [Worker(1, true, 0, false, false, Waiting)]);
    run, steps := Onward(run, steps, DoExit(0, 0));
    assert run[3].procs[0].workers == [Worker(1, false, 1, false, false, Waiting)];
    assert run[3].procs == [Proc(false, 1, Some(0), [Worker(1, false, 1, false, false, Waiting)])];
    run, steps := Onward(run, steps, DoStart(0));
    assert run[4].procs[0].workers
            == [Worker(1, false, 1, false, false, Waiting), Worker(2, true, 0, false, false, Waiting)];
    var before := run[4];
    run, steps := Onward(run, steps, DoFail(0, 0));
    assert run[4] == before;
    assert run[5].procs[0].workers
            == [Worker(1, false, 1, false, false, Failed), Worker(2, true, 0, true, false, Waiting)];
    assert IsRun(run, steps);
    assert StopsSuccessor(run[4], run[5]);
  }

  lemma {:induction false} Onward(
      run: seq<Store>, steps: seq<Step>, s: Step) returns (longer: seq<Store>, more: seq<Step>)
    requires IsRun(run, steps) && run[0] == EMPTY_STORE
    ensures IsRun(longer, more) && longer[0] == EMPTY_STORE && more == steps + [s] && longer[..|run|] == run
    ensures StoreValid(run[|steps|]) && longer[|more|] == Next(run[|steps|], s)
  {
    hide Next;
    RunInv(run, steps, |steps|);
    StoreInvValid(run[|steps|]);
    longer, more := run + [Next(run[|steps|], s)], steps + [s];
  }
}
