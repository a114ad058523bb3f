/** What the steps of the coordinator mean to somebody who looks at snapshots: which phase,
    message, error and times an operation ends with, and where they can be read. */
module OperationOutcome {
  import opened Wrappers
  import opened OperationSpec
  import opened OperationProofs

  // ---------------------------------------------------------------- how an operation ends

  /** The snapshot of an operation whose action has ended like this. */
  ghost predicate EndsAs(before: Snapshot, e: Ending, now: nat, s: Snapshot) {
    && s.id == before.id && s.kind == before.kind && s.startedAt == before.startedAt
    && (s.phase.Succeeded? <==> !e.failed && !e.contextOver)
    && (s.phase.Failed? <==> e.failed && !e.cancelledError && !e.contextCancelled)
    && (s.phase.Cancelled? <==> if e.failed then e.cancelledError || e.contextCancelled else e.contextOver)
    && (s.phase.Succeeded? ==> s.message == "operation completed")
    && (s.phase.Failed? ==> s.message == "operation failed")
    && (s.phase.Cancelled? ==> s.message == "operation cancelled")
    && (e.failed || e.contextOver ==> s.error == e.error)
    && (!e.failed && !e.contextOver ==> s.error == before.error)
    && s.updatedAt == now && s.finishedAt == now
  }

  /** Nothing but operation i changes. */
  ghost predicate OthersKept(c: Coord, d: Coord, i: nat) {
    && |d.ops| == |c.ops| && (forall j :: 0 <= j < |c.ops| && j != i ==> d.ops[j] == c.ops[j])
    && d.active == c.active && d.last == c.last && d.byID == c.byID && d.history == c.history
  }

  lemma ConcludeExactly(c: Coord, i: nat, e: Ending, now: nat)
    requires Inv(c) && i < |c.ops| && c.ops[i].stage.Acting?
    ensures var d := Next(c, DoConclude(i, e), now);
            && OthersKept(c, d, i) && EndsAs(c.ops[i].snap, e, now, d.ops[i].snap)
            && d.ops[i].stage == Concluded(d.ops[i].snap) && d.ops[i].closes == 0
  {
    OperationOk(c, i);
  }

  // ---------------------------------------------------------------- how it begins and goes on

  /** A submission queues one more operation under the next number, which can be looked up
      and is the one shown; refused, it changes nothing. */
  lemma SubmitExactly(c: Coord, kind: Kind, now: nat)
    requires Inv(c)
    ensures var d := Next(c, DoSubmit(kind), now); var n := |c.ops|;
            if exists i :: 0 <= i < n && Live(c.ops[i].snap.phase) then d == c
            else && |d.ops| == n + 1 && d.ops[..n] == c.ops && d.last == c.last && d.history == c.history
                 && d.ops[n] == Operation(Snapshot(n + 1, kind, Queued, now, now, 0, "operation queued", ""), Spawned,
                                          0)
                 && Get(d, n + 1) == Some(d.ops[n].snap) && ActiveValid(d) && Current(d) == Some(d.ops[n].snap)
  {
    hide Indexed, Journal;
  }

  /** A report while the operation lives: it runs, the message is the phase and the text, or
      the text alone, or the one before; nothing else of it changes. */
  ghost predicate Reported(before: Snapshot, phase: string, message: string, now: nat, s: Snapshot) {
    && s.phase.Running? && s.updatedAt == now
    && s.message == (if phase == "" then (if message == "" then before.message else message)
                     else phase + ": " + message)
    && s.id == before.id && s.kind == before.kind && s.startedAt == before.startedAt
    && s.finishedAt == before.finishedAt && s.error == before.error
  }

  lemma {:induction false} BeginExactly(c: Coord, i: nat, now: nat)
    requires Inv(c) && i < |c.ops|
    ensures var d := Next(c, DoBegin(i), now);
            if !c.ops[i].stage.Spawned? then d == c
            else && OthersKept(c, d, i) && d.ops[i].stage.Acting? && d.ops[i].closes == 0
                 && Reported(c.ops[i].snap, "running", "operation started", now, d.ops[i].snap)
                 && d.ops[i].snap.message == "running: operation started"
  {
    hide Indexed, Journal, LiveIsActive;
    OperationOk(c, i);
  }

  /** Reports after the end change nothing. */
  lemma {:induction false} ReportExactly(c: Coord, i: nat, phase: string, message: string, now: nat)
    requires Inv(c) && i < |c.ops|
    ensures var d := Next(c, DoReport(i, phase, message), now);
            if !c.ops[i].stage.Acting? then d == c
            else && OthersKept(c, d, i) && d.ops[i].stage.Acting? && d.ops[i].closes == 0
                 && Reported(c.ops[i].snap, phase, message, now, d.ops[i].snap)
  {
    OperationOk(c, i);
    SameAgain(c, i);
    if !c.ops[i].stage.Acting? { assert c.ops[i].snap.phase.Queued? || !Live(c.ops[i].snap.phase); }
  }

  /** The channel is closed before the entry is made; the entry is the snapshot of the end, the
      oldest entries beyond the bound go, and the operation is shown no longer as active. */
  lemma {:induction false} ReleaseExactly(c: Coord, i: nat, now: nat)
    requires Inv(c) && i < |c.ops| && c.ops[i].stage.Concluded?
    ensures var d := Next(c, DoRelease(i), now);
            OthersKept(c, d, i) && d.ops[i].snap == c.ops[i].snap && d.ops[i].closes == 1 && d.ops[i].stage.Released?
  {
    OperationOk(c, i);
  }

  lemma {:induction false} RecordExactly(c: Coord, i: nat, now: nat)
    requires Inv(c) && i < |c.ops| && c.ops[i].stage.Released?
    ensures var d := Next(c, DoRecord(i), now); var snap := c.ops[i].snap; var n := |c.history|;
            && d.last == Some(snap) && |d.history| == (if n + 1 <= c.maxHistory then n + 1 else c.maxHistory)
            && d.history == (c.history + [snap])[n + 1 - |d.history|..]
            && d.active == (if c.active == Some(i) then None else c.active)
            && |d.ops| == |c.ops| && d.ops[i].snap == snap && d.ops[i].stage.Recorded? && d.ops[i].closes == 1
            && (forall j :: 0 <= j < |c.ops| && j != i ==> d.ops[j] == c.ops[j])
  {
    hide IDs, Journal, Indexed, LiveIsActive, Remember;
    OperationOk(c, i);
    RememberExactly(c, c.ops[i].snap);
    assert c.ops[i].stage.final == c.ops[i].snap;
  }

  lemma {:induction false} RememberExactly(c: Coord, snap: Snapshot)
    requires Inv(c)
    ensures var d := Remember(c, snap); var n := |c.history|;
            && d == c.(last := Some(snap), history := d.history, byID := d.byID, recorded := d.recorded)
            && |d.history| == (if n + 1 <= c.maxHistory then n + 1 else c.maxHistory)
            && d.history == (c.history + [snap])[n + 1 - |d.history|..]
  {
    hide IDs, Journal, Numbered, LiveIsActive;
    BoundedHistory(c);
  }

  lemma {:induction false} BoundedHistory(c: Coord)
    requires Inv(c)
    ensures |c.history| <= c.maxHistory
  {
    hide Journal, Numbered, IDs;
  }

  // ---------------------------------------------------------------- over whole runs

  /** The action of operation i ended in the k-th step of the run, and the snapshot says how. */
  ghost predicate EndedAt(max: nat, steps: seq<Timed>, k: nat, i: nat, s: Snapshot) {
    k < |steps| && steps[k].step.DoConclude? && steps[k].step.i == i
    && exists m :: Follows(Initial(max), steps[..k], m) && ActingIn(m, i)
                   && EndsAs(m.ops[i].snap, steps[k].step.ending, steps[k].now, s)
  }

  ghost predicate ActingIn(c: Coord, i: nat) { i < |c.ops| && c.ops[i].stage.Acting? }

  lemma {:induction false} EndedEarlier(max: nat, steps: seq<Timed>, k: nat, i: nat, s: Snapshot)
    requires steps != [] && EndedAt(max, steps[..|steps| - 1], k, i, s)
    ensures EndedAt(max, steps, k, i, s)
  {
    hide EndsAs, Follows;
    assert steps[..|steps| - 1][..k] == steps[..k];
  }

  /** Over every run: a final snapshot tells how the action of its operation ended, in the step
      in which that operation was carried to its end. */
  lemma {:induction false} FinalTellsEnding(max: nat, steps: seq<Timed>, c: Coord, i: nat) returns (k: nat)
    requires Follows(Initial(max), steps, c) && i < |c.ops| && !Live(c.ops[i].snap.phase)
    ensures EndedAt(max, steps, k, i, c.ops[i].snap)
    decreases |steps|
  {
    hide Inv, EndsAs, Next, OthersKept;
    if steps == [] {
      assert false;
    }
    var n := |steps| - 1;
    var last := steps[n];
    var m :| ActiveValid(m) && Follows(Initial(max), steps[..n], m) && c == Next(m, last.step, last.now);
    InitialInv(max);
    RunInv(Initial(max), steps[..n], m);
    if i < |m.ops| && !Live(m.ops[i].snap.phase) {
      NextGrows(m, last.step, last.now, i);
      k := FinalTellsEnding(max, steps[..n], m, i);
      EndedEarlier(max, steps, k, i, c.ops[i].snap);
    } else {
      OnlyConclusionsEnd(m, last.step, last.now, i);
      k := n;
    }
  }

  /** A live operation gets a final snapshot only at the end of its action. */
  lemma {:induction false} OnlyConclusionsEnd(c: Coord, s: Step, now: nat, i: nat)
    requires Inv(c) && i < |Next(c, s, now).ops| && !Live(Next(c, s, now).ops[i].snap.phase)
    requires i < |c.ops| ==> Live(c.ops[i].snap.phase)
    ensures s.DoConclude? && s.i == i && ActingIn(c, i)
    ensures EndsAs(c.ops[i].snap, s.ending, now, Next(c, s, now).ops[i].snap)
  {
    hide Indexed, Journal, EndsAs, Finished, IDs;
    if i < |c.ops| {
      OperationOk(c, i);
      if s.DoConclude? && s.i == i && c.ops[i].stage.Acting? { ConcludeExactly(c, i, s.ending, now); }
    }
  }

  /** So does every entry of the history, and whatever a lookup finds once the operation is over. */
  lemma {:induction false} HistoryTellsEnding(max: nat, steps: seq<Timed>, c: Coord, s: Snapshot) returns (k: nat)
    requires Follows(Initial(max), steps, c)
    requires s in c.history || (Get(c, s.id) == Some(s) && !Live(s.phase))
    ensures s.id > 0 && EndedAt(max, steps, k, s.id - 1, s)
  {
    hide Follows, EndedAt, Numbered, IDs, FinalOf;
    assert Reachable(max, c);
    if s in c.history {
      HistoryIsRecent(max, c);
      FinalIsOver(max, c, s);
    }
    k := FinalTellsEnding(max, steps, c, s.id - 1);
  }

  lemma {:induction false} FinalIsOver(max: nat, c: Coord, s: Snapshot)
    requires Reachable(max, c) && FinalOf(c, s)
    ensures 0 < s.id <= |c.ops| && c.ops[s.id - 1].snap == s && !Live(s.phase)
  {
    hide Reachable, Follows;
    ReachableInv(max, c);
    OperationOk(c, s.id - 1);
  }
}
