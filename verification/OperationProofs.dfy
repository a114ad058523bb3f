/** What every run of the coordinator keeps, whatever the interleaving. */
module OperationProofs {
  import opened Wrappers
  import opened OperationSpec

  /** An operation and the position of its goroutine belong together. */
  ghost predicate Coherent(o: Operation) {
    match o.stage
    case Spawned => o.snap.phase.Queued? && o.closes == 0
    case Acting => o.snap.phase.Running? && o.closes == 0
    case Concluded(final) => !Live(o.snap.phase) && o.closes == 0 && o.snap == final
    case Released(final) => !Live(o.snap.phase) && o.closes == 1 && o.snap == final
    case Recorded => !Live(o.snap.phase) && o.closes == 1
  }

  ghost predicate Numbered(c: Coord) {
    c.nextID == |c.ops| && forall i :: 0 <= i < |c.ops| ==> c.ops[i].snap.id == i + 1 && Coherent(c.ops[i])
  }

  /** Only the active operation can be queued or running, and none stays active
      once it is recorded. */
  ghost predicate LiveIsActive(c: Coord) {
    && (forall i :: 0 <= i < |c.ops| && Live(c.ops[i].snap.phase) ==> c.active == Some(i))
    && (forall i :: 0 <= i < |c.ops| && c.active == Some(i) ==> !c.ops[i].stage.Recorded?)
  }

  /** Each operation is recorded once, with its last snapshot, exactly at the end. */
  ghost predicate Journal(c: Coord) {
    && (forall k :: 0 <= k < |c.recorded| ==> FinalOf(c, c.recorded[k]))
    && (forall i, j :: 0 <= i < j < |c.recorded| ==> c.recorded[i].id != c.recorded[j].id)
    && (forall i :: 0 <= i < |c.ops| && c.ops[i].stage.Recorded? ==> c.ops[i].snap in c.recorded)
  }

  ghost predicate FinalOf(c: Coord, s: Snapshot) {
    0 < s.id <= |c.ops| && c.ops[s.id - 1].snap == s && c.ops[s.id - 1].stage.Recorded?
  }

  function Forgotten(c: Coord): nat {
    if |c.recorded| > c.maxHistory then |c.recorded| - c.maxHistory else 0
  }

  /** The history is the newest part of the journal, and the index holds every
      operation whose entry was not pruned. */
  ghost predicate Indexed(c: Coord) {
    && c.history == c.recorded[Forgotten(c)..]
    && (c.last == if |c.recorded| > 0 then Some(c.recorded[|c.recorded| - 1]) else None)
    && (forall id :: id in c.byID <==> 0 < id <= |c.ops| && id !in IDs(c.recorded[..Forgotten(c)]))
  }

  ghost predicate Inv(c: Coord) {
    ActiveValid(c) && Numbered(c) && LiveIsActive(c) && Journal(c) && Indexed(c)
  }

  lemma {:induction false} SubmitJournal(c: Coord, kind: Kind, now: nat)
    requires ActiveValid(c) && Numbered(c) && Journal(c) && Submitted(c, kind, now).Accepted?
    ensures Journal(Submit(c, kind, now))
  {
    hide Coherent;
    var d := Submit(c, kind, now);
    assert forall i :: 0 <= i < |c.ops| ==> d.ops[i] == c.ops[i];
    forall k | 0 <= k < |d.recorded| ensures FinalOf(d, d.recorded[k]) { assert FinalOf(c, c.recorded[k]); }
  }

  lemma {:induction false} SubmitIndexed(c: Coord, kind: Kind, now: nat)
    requires ActiveValid(c) && Numbered(c) && Journal(c) && Indexed(c) && Submitted(c, kind, now).Accepted?
    ensures Indexed(Submit(c, kind, now))
  {
    hide Coherent, Live, IDs;
    ForgottenAreOld(c);
  }

  lemma {:induction false} ForgottenAreOld(c: Coord)
    requires Numbered(c) && Journal(c)
    ensures |c.ops| + 1 !in IDs(c.recorded[..Forgotten(c)])
  {
    hide Coherent, Live;
    forall s | s in c.recorded[..Forgotten(c)] ensures s.id <= |c.ops| {
      assert FinalOf(c, s);
    }
  }

  lemma {:induction false} SubmitInv(c: Coord, kind: Kind, now: nat)
    requires Inv(c)
    ensures Inv(Submit(c, kind, now))
  {
    hide Journal, Indexed;
    if Submitted(c, kind, now).Accepted? {
      SubmitJournal(c, kind, now);
      SubmitIndexed(c, kind, now);
    }
  }

  lemma {:induction false} WithJournal(c: Coord, i: nat, o: Operation)
    requires Journal(c) && i < |c.ops| && (o.stage.Recorded? || c.ops[i].stage.Recorded? ==> o == c.ops[i])
    ensures Journal(With(c, i, o))
  {
    var d := With(c, i, o);
    forall k | 0 <= k < |d.recorded| ensures FinalOf(d, d.recorded[k]) { assert FinalOf(c, c.recorded[k]); }
  }

  lemma WithIndexed(c: Coord, i: nat, o: Operation)
    requires Indexed(c) && i < |c.ops|
    ensures Indexed(With(c, i, o))
  {
  }

  /** Replacing one operation by a later version of itself, short of recording it. */
  lemma {:induction false} WithInv(c: Coord, i: nat, o: Operation)
    requires Inv(c) && i < |c.ops| && Coherent(o) && o.snap.id == i + 1
    requires Live(o.snap.phase) ==> Live(c.ops[i].snap.phase)
    requires o.stage.Recorded? || c.ops[i].stage.Recorded? ==> o == c.ops[i]
    ensures Inv(With(c, i, o))
  {
    hide Journal, Indexed;
    WithJournal(c, i, o);
    WithIndexed(c, i, o);
  }

  /** The newest entries of a longer journal. */
  lemma {:induction false} Newest(c: Coord, final: Snapshot)
    requires Indexed(c)
    ensures var d := Remember(c, final);
            && d.history == d.recorded[Forgotten(d)..]
            && (forall id :: id in d.byID <==> 0 < id <= |c.ops| && id !in IDs(d.recorded[..Forgotten(d)]))
  {
    hide IDs;
    var d := Remember(c, final);
    var longer := c.history + [final];
    var cut := if |longer| > c.maxHistory then |longer| - c.maxHistory else 0;
    assert d.recorded[Forgotten(c)..] == longer;
    assert Forgotten(d) == Forgotten(c) + cut;
    assert d.recorded[..Forgotten(d)] == c.recorded[..Forgotten(c)] + longer[..cut];
    Parts(c.recorded[..Forgotten(c)], longer[..cut]);
  }

  lemma {:induction false} Parts(a: seq<Snapshot>, b: seq<Snapshot>)
    ensures IDs(a + b) == IDs(a) + IDs(b)
  {
    forall id ensures id in IDs(a + b) <==> id in IDs(a) + IDs(b) {
      if s :| s in a && s.id == id { assert s in a + b; }
      if s :| s in b && s.id == id { assert s in a + b; }
    }
  }

  lemma {:induction false} RecordJournal(c: Coord, i: nat)
    requires Numbered(c) && Journal(c) && i < |c.ops| && c.ops[i].stage.Released?
    ensures Journal(Record(c, i, c.ops[i].stage.final))
  {
    var final := c.ops[i].stage.final;
    var d := Record(c, i, final);
    assert Coherent(c.ops[i]) && c.ops[i].snap == final && final.id == i + 1;
    forall k | 0 <= k < |c.recorded| ensures FinalOf(d, c.recorded[k]) && c.recorded[k].id != final.id {
      assert FinalOf(c, c.recorded[k]);
    }
    assert FinalOf(d, final);
    assert d.recorded == c.recorded + [final];
    forall j | 0 <= j < |d.ops| && d.ops[j].stage.Recorded? ensures d.ops[j].snap in d.recorded {
      if j != i { assert c.ops[j].snap in c.recorded; } else { assert d.recorded[|c.recorded|] == final; }
    }
  }

  lemma {:induction false} RecordIndexed(c: Coord, i: nat)
    requires Indexed(c) && i < |c.ops| && c.ops[i].stage.Released?
    ensures Indexed(Record(c, i, c.ops[i].stage.final))
  {
    hide IDs, Forgotten, Remember;
    var final := c.ops[i].stage.final;
    var d, r := Remember(c, final), Record(c, i, final);
    RememberIndexed(c, final);
    assert r.recorded == d.recorded && r.maxHistory == d.maxHistory && r.history == d.history;
    assert r.last == d.last && r.byID == d.byID && |r.ops| == |d.ops|;
    SameForgotten(r, d);
  }

  lemma {:induction false} RememberIndexed(c: Coord, final: Snapshot)
    requires Indexed(c)
    ensures Indexed(Remember(c, final)) && Remember(c, final).ops == c.ops
  {
    hide IDs;
    Newest(c, final);
  }

  lemma SameForgotten(c: Coord, d: Coord)
    requires c.recorded == d.recorded && c.maxHistory == d.maxHistory
    ensures Forgotten(c) == Forgotten(d)
  {
  }

  lemma {:induction false} RecordInv(c: Coord, i: nat)
    requires Inv(c) && i < |c.ops| && c.ops[i].stage.Released?
    ensures Inv(Record(c, i, c.ops[i].stage.final))
  {
    hide Journal, Indexed, IDs;
    RecordJournal(c, i);
    RecordIndexed(c, i);
    assert Coherent(c.ops[i]);
  }

  lemma {:induction false} NextInv(c: Coord, s: Step, now: nat)
    requires Inv(c)
    ensures Inv(Next(c, s, now))
  {
    hide Inv, Numbered, LiveIsActive, Journal, Indexed, Submit, Record, With;
    InvParts(c);
    if s.DoSubmit? { SubmitInv(c, s.kind, now); }
    else if s.i < |c.ops| {
      OperationOk(c, s.i);
      if s.DoRecord? {
        if c.ops[s.i].stage.Released? { RecordInv(c, s.i); }
      } else {
        var o := Later(c.ops[s.i], s, now);
        if o != c.ops[s.i] { WithInv(c, s.i, o); } else { SameAgain(c, s.i); }
        assert Next(c, s, now) == c || Next(c, s, now) == With(c, s.i, o);
      }
    }
  }

  /** The step of one goroutine on its own operation, short of recording. */
  function Later(o: Operation, s: Step, now: nat): Operation {
    match s
    case DoBegin(_) =>
      if o.stage.Spawned? then o.(snap := Progressed(o.snap, "running", "operation started", now), stage := Acting)
      else o
    case DoReport(_, phase, message) =>
      if o.stage.Spawned? then o else o.(snap := Progressed(o.snap, phase, message, now))
    case DoConclude(_, ending) =>
      if !o.stage.Acting? || !Live(o.snap.phase) then o
      else o.(snap := Finished(o.snap, ending, now), stage := Concluded(Finished(o.snap, ending, now)))
    case DoRelease(_) =>
      if o.stage.Concluded? then o.(stage := Released(o.stage.final), closes := o.closes + 1) else o
    case _ => o
  }

  lemma {:induction false} SameAgain(c: Coord, i: nat)
    requires i < |c.ops|
    ensures With(c, i, c.ops[i]) == c
  {
    assert c.ops[i := c.ops[i]] == c.ops;
  }

  lemma InvParts(c: Coord)
    requires Inv(c)
    ensures ActiveValid(c)
  {
  }

  lemma OperationOk(c: Coord, i: nat)
    requires Inv(c) && i < |c.ops|
    ensures Coherent(c.ops[i]) && c.ops[i].snap.id == i + 1
  {
  }

  // ---------------------------------------------------------------- whole runs

  ghost predicate Follows(c: Coord, steps: seq<Timed>, d: Coord)
    decreases |steps|
  {
    if steps == [] then d == c
    else
      exists m ::
        ActiveValid(m) && Follows(c, steps[..|steps| - 1], m)
        && d == Next(m, steps[|steps| - 1].step, steps[|steps| - 1].now)
  }

  /** Safety over any interleaving of any number of operations. */
  lemma {:induction false} RunInv(c: Coord, steps: seq<Timed>, d: Coord)
    requires Inv(c) && Follows(c, steps, d)
    ensures Inv(d)
    decreases |steps|
  {
    if steps != [] {
      var last := steps[|steps| - 1];
      var m :| ActiveValid(m) && Follows(c, steps[..|steps| - 1], m) && d == Next(m, last.step, last.now);
      RunInv(c, steps[..|steps| - 1], m);
      NextInv(m, last.step, last.now);
    }
  }

  lemma InitialInv(maxHistory: nat)
    ensures Inv(Initial(maxHistory))
  {
  }

  /** The states of some run from the start. */
  ghost predicate Reachable(max: nat, c: Coord) {
    exists steps :: Follows(Initial(max), steps, c)
  }

  lemma {:induction false} ReachableInv(max: nat, c: Coord)
    requires Reachable(max, c)
    ensures ActiveValid(c) && Inv(c) && c.maxHistory == max
  {
    hide Follows, Inv;
    var steps :| Follows(Initial(max), steps, c);
    InitialInv(max);
    RunInv(Initial(max), steps, c);
    MaxStays(max, steps, c);
    InvParts(c);
  }

  lemma {:induction false} MaxStays(max: nat, steps: seq<Timed>, c: Coord)
    requires Follows(Initial(max), steps, c)
    ensures c.maxHistory == max
    decreases |steps|
  {
    if steps != [] {
      var last := steps[|steps| - 1];
      var m :| ActiveValid(m) && Follows(Initial(max), steps[..|steps| - 1], m) && c == Next(m, last.step, last.now);
      MaxStays(max, steps[..|steps| - 1], m);
    }
  }

  /** Queued or running means active, so there is at most one. */
  lemma {:induction false} OneAtATime(max: nat, c: Coord, i: nat, j: nat)
    requires Reachable(max, c) && i < |c.ops| && j < |c.ops|
    ensures ActiveValid(c)
    ensures Live(c.ops[i].snap.phase) ==> Current(c) == Some(c.ops[i].snap)
    ensures Live(c.ops[i].snap.phase) && Live(c.ops[j].snap.phase) ==> i == j
  {
    hide Reachable, Follows, Journal, Indexed, Numbered;
    ReachableInv(max, c);
  }

  /** A submission is refused exactly while some operation is queued or running, and
      the refusal names that operation. */
  lemma {:induction false} RefusedWhileOneLives(max: nat, c: Coord, kind: Kind, now: nat)
    requires Reachable(max, c)
    ensures ActiveValid(c)
    ensures Submitted(c, kind, now).Conflict? <==> exists i :: 0 <= i < |c.ops| && Live(c.ops[i].snap.phase)
    ensures forall i :: 0 <= i < |c.ops| && Live(c.ops[i].snap.phase) ==>
        Submitted(c, kind, now) == Conflict(c.ops[i].snap)
  {
    hide Reachable, Follows, Journal, Indexed, Numbered;
    ReachableInv(max, c);
  }

  /** Once every operation is recorded none is active, and the last entry of the
      history is what the coordinator shows. */
  lemma {:induction false} QuietShowsLast(max: nat, c: Coord)
    requires Reachable(max, c) && forall i :: 0 <= i < |c.ops| ==> c.ops[i].stage.Recorded?
    ensures ActiveValid(c) && Current(c) == c.last && (c.ops != [] ==> c.last.Some?)
  {
    hide Reachable, Follows, Coherent, IDs;
    ReachableInv(max, c);
    if c.ops != [] { assert c.ops[0].snap in c.recorded; }
  }

  /** The done channel is closed at most once, and only on a final snapshot; and an
      action that ends always finds its operation still running. */
  lemma {:induction false} DoneOnce(max: nat, c: Coord, i: nat)
    requires Reachable(max, c) && i < |c.ops|
    ensures c.ops[i].closes <= 1
    ensures c.ops[i].closes == 1 ==> !Live(c.ops[i].snap.phase)
    ensures c.ops[i].stage.Recorded? ==> c.ops[i].closes == 1
    ensures c.ops[i].stage.Acting? ==> Live(c.ops[i].snap.phase)
  {
    hide Reachable, Follows, Inv;
    ReachableInv(max, c);
    OperationOk(c, i);
  }

  function Rank(p: Phase): nat { if p.Queued? then 0 else if p.Running? then 1 else 2 }

  /** What time may do to an operation. */
  ghost predicate Grows(o: Operation, p: Operation) {
    && Rank(o.snap.phase) <= Rank(p.snap.phase) && o.closes <= p.closes
    && p.snap.id == o.snap.id && p.snap.kind == o.snap.kind && p.snap.startedAt == o.snap.startedAt
    && (!Live(o.snap.phase) ==> p.snap == o.snap)
    && (o.stage.Recorded? ==> p == o)
  }

  /** What a report and an ending may do to a snapshot. */
  lemma ProgressedKeeps(snap: Snapshot)
    ensures forall phase, message, now :: SameOperation(snap, Progressed(snap, phase, message, now))
              && (if Live(snap.phase) then Progressed(snap, phase, message, now).phase.Running?
                  else Progressed(snap, phase, message, now) == snap)
    ensures forall e, now :: SameOperation(snap, Finished(snap, e, now)) && Rank(Finished(snap, e, now).phase) == 2
  {
  }

  predicate SameOperation(s: Snapshot, t: Snapshot) { t.id == s.id && t.kind == s.kind && t.startedAt == s.startedAt }

  lemma {:induction false} NextGrows(c: Coord, s: Step, now: nat, i: nat)
    requires Inv(c) && i < |c.ops|
    ensures var d := Next(c, s, now);
            i < |d.ops| && Grows(c.ops[i], d.ops[i]) && Rank(d.ops[i].snap.phase) <= Rank(c.ops[i].snap.phase) + 1
  {
    hide Inv, Progressed, Finished, IDs;
    OperationOk(c, i);
    ProgressedKeeps(c.ops[i].snap);
  }

  /** Phases only move forward, one at a time, and what is final stays as it is. */
  lemma {:induction false} RunGrows(c: Coord, steps: seq<Timed>, d: Coord, i: nat)
    requires Inv(c) && Follows(c, steps, d) && i < |c.ops|
    ensures i < |d.ops| && Grows(c.ops[i], d.ops[i])
    decreases |steps|
  {
    if steps != [] {
      var last := steps[|steps| - 1];
      var m :| ActiveValid(m) && Follows(c, steps[..|steps| - 1], m) && d == Next(m, last.step, last.now);
      RunGrows(c, steps[..|steps| - 1], m, i);
      RunInv(c, steps[..|steps| - 1], m);
      NextGrows(m, last.step, last.now, i);
    }
  }

  // ---------------------------------------------------------------- the index

  /** This operation was recorded, and that many others after it. */
  ghost predicate RecordedBefore(c: Coord, id: nat, later: nat) {
    later < |c.recorded| && c.recorded[|c.recorded| - 1 - later].id == id
  }

  lemma {:induction false} RecordedOnes(c: Coord, id: nat)
    requires Numbered(c) && Journal(c)
    ensures id in IDs(c.recorded) <==> 0 < id <= |c.ops| && c.ops[id - 1].stage.Recorded?
  {
    hide Coherent;
    if s :| s in c.recorded && s.id == id { assert FinalOf(c, s); }
    if 0 < id <= |c.ops| && c.ops[id - 1].stage.Recorded? { assert c.ops[id - 1].snap in c.recorded; }
  }

  /** No entry occurs in two halves of the journal. */
  lemma {:induction false} Disjoint(recorded: seq<Snapshot>, f: nat, id: nat)
    requires f <= |recorded| && forall i, j :: 0 <= i < j < |recorded| ==> recorded[i].id != recorded[j].id
    ensures id in IDs(recorded) <==> id in IDs(recorded[f..]) || id in IDs(recorded[..f])
    ensures id in IDs(recorded[f..]) ==> id !in IDs(recorded[..f])
  {
    assert recorded == recorded[..f] + recorded[f..];
    Parts(recorded[..f], recorded[f..]);
    forall s, t | s in recorded[f..] && t in recorded[..f] ensures s.id != t.id {
      var i :| 0 <= i < |recorded| - f && recorded[f..][i] == s;
      var j :| 0 <= j < f && recorded[j] == t;
      assert recorded[j].id != recorded[f + i].id;
    }
  }

  /** The index is the disjoint union of the history and the operations not yet
      recorded. */
  lemma {:induction false} IndexIsExact(max: nat, c: Coord, id: nat)
    requires Reachable(max, c)
    ensures id in c.byID <==> id in IDs(c.history) || (0 < id <= |c.ops| && !c.ops[id - 1].stage.Recorded?)
    ensures id in IDs(c.history) ==> 0 < id <= |c.ops| && c.ops[id - 1].stage.Recorded?
  {
    hide Reachable, Follows, IDs, LiveIsActive;
    ReachableInv(max, c);
    RecordedOnes(c, id);
    Disjoint(c.recorded, Forgotten(c), id);
  }

  /** The history holds final snapshots without duplicates, its bound holds, and it
      ends in the last entry. */
  lemma {:induction false} HistoryIsRecent(max: nat, c: Coord)
    requires Reachable(max, c)
    ensures |c.history| <= max && forall i, j :: 0 <= i < j < |c.history| ==> c.history[i].id != c.history[j].id
    ensures forall s :: s in c.history ==> FinalOf(c, s)
    ensures c.history != [] ==> c.last == Some(c.history[|c.history| - 1])
  {
    hide Reachable, Follows, IDs, LiveIsActive, Numbered, FinalOf;
    ReachableInv(max, c);
    forall s | s in c.history ensures FinalOf(c, s) { assert s in c.recorded; }
  }

  /** A submitted operation can be looked up until maxHistory later operations have
      been recorded, and from then on never again. */
  lemma {:induction false} RetrievableUntil(max: nat, c: Coord, id: nat)
    requires Reachable(max, c) && 0 < id <= |c.ops|
    ensures Get(c, id) == None <==> exists later :: max <= later && RecordedBefore(c, id, later)
    ensures Get(c, id).Some? ==> Get(c, id) == Some(c.ops[id - 1].snap) && c.ops[id - 1].snap.id == id
  {
    hide Reachable, Follows, IDs, Journal, LiveIsActive, Coherent, RecordedBefore;
    ReachableInv(max, c);
    PrunedMeansLongAgo(c, id);
  }

  lemma {:induction false} PrunedMeansLongAgo(c: Coord, id: nat)
    ensures id in IDs(c.recorded[..Forgotten(c)]) <==>
        exists later :: c.maxHistory <= later && RecordedBefore(c, id, later)
  {
    var f := Forgotten(c);
    if id in IDs(c.recorded[..f]) {
      var s :| s in c.recorded[..f] && s.id == id;
      var j :| 0 <= j < f && c.recorded[j] == s;
      assert RecordedBefore(c, id, |c.recorded| - 1 - j);
    }
    if later :| c.maxHistory <= later && RecordedBefore(c, id, later) {
      assert c.recorded[|c.recorded| - 1 - later] in c.recorded[..f];
    }
  }

  // ---------------------------------------------------------------- order of the history

  ghost predicate Ascending(snaps: seq<Snapshot>) { forall i, j :: 0 <= i < j < |snaps| ==> snaps[i].id < snaps[j].id }

  /** No operation submitted after operation i is recorded yet. */
  predicate NoneLater(c: Coord, i: nat) { forall j :: i < j < |c.ops| ==> !c.ops[j].stage.Recorded? }

  lemma {:induction false} JournalHolds(c: Coord, j: nat)
    requires Inv(c) && j < |c.ops| && c.ops[j].stage.Recorded?
    ensures exists k :: 0 <= k < |c.recorded| && c.recorded[k].id == j + 1
  {
    hide IDs, Indexed, LiveIsActive, Coherent;
    assert c.ops[j].snap in c.recorded;
  }

  /** The entry that a record makes the last one is the newest recorded operation exactly
      if no later operation was recorded before it. */
  lemma {:induction false} LastIsNewestExactly(max: nat, c: Coord, i: nat, now: nat)
    requires Reachable(max, c) && i < |c.ops| && c.ops[i].stage.Released?
    ensures ActiveValid(c)
    ensures var d := Next(c, DoRecord(i), now);
            && d.last.Some? && d.last.value.id == i + 1
            && ((forall j :: 0 <= j < |d.ops| && d.ops[j].stage.Recorded? ==> d.ops[j].snap.id <= d.last.value.id)
                <==> NoneLater(c, i))
  {
    hide Reachable, Follows, Journal, Indexed, IDs;
    ReachableInv(max, c);
    OperationOk(c, i);
    var d := Next(c, DoRecord(i), now);
    assert forall j :: 0 <= j < |c.ops| ==> d.ops[j].snap == c.ops[j].snap && c.ops[j].snap.id == j + 1;
    assert forall j :: 0 <= j < |c.ops| && j != i ==> d.ops[j] == c.ops[j];
  }

  /** A record keeps the journal in order of submission exactly under that condition. */
  lemma {:induction false} RecordKeepsOrderExactly(c: Coord, i: nat)
    requires Inv(c) && i < |c.ops| && c.ops[i].stage.Released?
    ensures Ascending(Record(c, i, c.ops[i].stage.final).recorded) <==> Ascending(c.recorded) && NoneLater(c, i)
  {
    hide IDs, Indexed, LiveIsActive;
    OperationOk(c, i);
    var final := c.ops[i].stage.final;
    var r := c.recorded + [final];
    assert Record(c, i, final).recorded == r && final.id == i + 1;
    if Ascending(r) {
      assert forall x :: 0 <= x < |c.recorded| ==> r[x] == c.recorded[x] && r[x].id < r[|c.recorded|].id;
      forall j | i < j < |c.ops| ensures !c.ops[j].stage.Recorded? {
        if c.ops[j].stage.Recorded? { JournalHolds(c, j); }
      }
    }
    if Ascending(c.recorded) && NoneLater(c, i) {
      forall x | 0 <= x < |c.recorded| ensures c.recorded[x].id < final.id {
        assert FinalOf(c, c.recorded[x]);
      }
    }
  }

  /** A run in which nothing is submitted while an operation is still to be recorded. */
  ghost predicate Patiently(c: Coord, steps: seq<Timed>, d: Coord)
    decreases |steps|
  {
    if steps == [] then d == c
    else
      var last := steps[|steps| - 1];
      exists m :: ActiveValid(m) && Patiently(c, steps[..|steps| - 1], m) && d == Next(m, last.step, last.now)
                  && (last.step.DoSubmit? ==> m.active.None?)
  }

  lemma {:induction false} PatientIsRun(c: Coord, steps: seq<Timed>, d: Coord)
    requires Patiently(c, steps, d)
    ensures Follows(c, steps, d)
    decreases |steps|
  {
    if steps != [] {
      var last := steps[|steps| - 1];
      var m :| ActiveValid(m) && Patiently(c, steps[..|steps| - 1], m) && d == Next(m, last.step, last.now)
               && (last.step.DoSubmit? ==> m.active.None?);
      PatientIsRun(c, steps[..|steps| - 1], m);
    }
  }

  /** Then only the newest operation can be unrecorded, and it is the active one. */
  ghost predicate OneOpen(c: Coord) {
    && (forall i :: 0 <= i < |c.ops| && !c.ops[i].stage.Recorded? ==> i == |c.ops| - 1 && c.active == Some(i))
    && Ascending(c.recorded)
  }

  lemma {:induction false} NextOneOpen(c: Coord, s: Step, now: nat)
    requires Inv(c) && OneOpen(c) && (s.DoSubmit? ==> c.active.None?)
    ensures ActiveValid(c) && OneOpen(Next(c, s, now))
  {
    hide Inv, Ascending, Record;
    InvParts(c);
    if s.DoRecord? && s.i < |c.ops| && c.ops[s.i].stage.Released? {
      RecordKeepsOrderExactly(c, s.i);
      RecordCloses(c, s.i);
    }
  }

  lemma {:induction false} RecordCloses(c: Coord, i: nat)
    requires OneOpen(c) && i < |c.ops| && c.ops[i].stage.Released?
    ensures var d := Record(c, i, c.ops[i].stage.final); forall j :: 0 <= j < |d.ops| ==> d.ops[j].stage.Recorded?
    ensures NoneLater(c, i)
  {
    hide IDs;
  }

  /** If every submission waits until nothing is active, the history is in order of
      submission. */
  lemma {:induction false} PatientHistoryInOrder(max: nat, steps: seq<Timed>, c: Coord)
    requires Patiently(Initial(max), steps, c)
    ensures Ascending(c.recorded) && Ascending(c.history)
  {
    hide Patiently, Follows, Inv;
    PatientOneOpen(max, steps, c);
    PatientIsRun(Initial(max), steps, c);
    InitialInv(max);
    RunInv(Initial(max), steps, c);
    HistoryIsTail(c);
    assert Ascending(c.recorded);
  }

  lemma {:induction false} HistoryIsTail(c: Coord)
    requires Inv(c)
    ensures Ascending(c.recorded) ==> Ascending(c.history)
  {
    hide IDs, Coherent;
    assert forall k :: 0 <= k < |c.history| ==> c.history[k] == c.recorded[Forgotten(c) + k];
  }

  lemma {:induction false} PatientOneOpen(max: nat, steps: seq<Timed>, c: Coord)
    requires Patiently(Initial(max), steps, c)
    ensures OneOpen(c)
    decreases |steps|
  {
    hide Follows, Inv, Next;
    if steps == [] {
      assert c == Initial(max);
    } else {
      var last := steps[|steps| - 1];
      var m :| ActiveValid(m) && Patiently(Initial(max), steps[..|steps| - 1], m) && c == Next(m, last.step, last.now)
               && (last.step.DoSubmit? ==> m.active.None?);
      PatientOneOpen(max, steps[..|steps| - 1], m);
      PatientIsRun(Initial(max), steps[..|steps| - 1], m);
      InitialInv(max);
      RunInv(Initial(max), steps[..|steps| - 1], m);
      NextOneOpen(m, last.step, last.now);
    }
  }

  // ---------------------------------------------------------------- the gap

  /** Between the two halves of a conclusion the next operation may be submitted,
      concluded and recorded, so the history need not be in order of submission and
      the last entry need not be the newest operation. */
  lemma {:induction false} LastNeedNotBeNewest()
    ensures exists c ::
              Reachable(32, c) && |c.ops| == 2 && c.ops[1].stage.Recorded? && c.last.Some? && c.last.value.id == 1
  {
    hide Reachable;
    StartReachable(32);
    var a := Conclusion(32, Initial(32), RuntimeStart);
    assert |a.ops| == 1 && a.ops[0].snap.id == 1;
    var b := Conclusion(32, a, RuntimeStop);
    var c := Extend(32, b, DoRecord(1));
    var d := Extend(32, c, DoRecord(0));
    assert d.last.value.id == 1;
  }

  lemma {:induction false} StartReachable(max: nat)
    ensures Reachable(max, Initial(max))
  {
    assert Follows(Initial(max), [], Initial(max));
  }

  /** An operation submitted and carried out up to, but not including, its record. */
  lemma {:induction false} Conclusion(max: nat, c: Coord, kind: Kind) returns (d: Coord)
    requires Reachable(max, c) && ActiveValid(c) && Submitted(c, kind, 0).Accepted? && c.nextID == |c.ops|
    ensures Reachable(max, d) && |d.ops| == |c.ops| + 1 && d.ops[..|c.ops|] == c.ops
    ensures d.active == Some(|c.ops|) && d.nextID == |d.ops| && d.history == c.history && d.maxHistory == c.maxHistory
    ensures var o := d.ops[|c.ops|];
            o.stage.Released? && !Live(o.snap.phase) && o.snap.id == |d.ops| && o.stage.final == o.snap
  {
    hide Reachable, Follows, Inv;
    var fine := Ending(false, false, false, false, "");
    var i := |c.ops|;
    d := Extend(max, c, DoSubmit(kind));
    d := Extend(max, d, DoBegin(i));
    d := Extend(max, d, DoConclude(i, fine));
    d := Extend(max, d, DoRelease(i));
  }

  lemma {:induction false} Extend(max: nat, c: Coord, s: Step) returns (d: Coord)
    requires Reachable(max, c)
    ensures ActiveValid(c) && d == Next(c, s, 0) && Reachable(max, d)
  {
    hide Inv, Next;
    ReachableInv(max, c);
    d := Next(c, s, 0);
    var steps :| Follows(Initial(max), steps, c);
    var longer := steps + [Timed(s, 0)];
    assert longer[..|longer| - 1] == steps;
    assert Follows(Initial(max), longer, d);
  }
}
