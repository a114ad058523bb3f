/** The coordinator as it is written: two kinds of objects, and one method for each
    critical section.  Each method is proved to take the step of OperationSpec. */
module OperationCoordinator {
  import opened Wrappers
  import opened OperationSpec
  import opened OperationProofs

  class OperationObject {
    var snap: Snapshot
    ghost var stage: Stage
    ghost var closes: nat

    ghost function Value(): Operation
      reads this
    {
      Operation(snap, stage, closes)
    }

    constructor (s: Snapshot)
      ensures Value() == Operation(s, Spawned, 0)
    {
      snap, stage, closes := s, Spawned, 0;
    }
  }

  ghost function Values(ops: seq<OperationObject>): seq<Operation>
    reads ops
  {
    seq(|ops|, i requires 0 <= i < |ops| reads ops => ops[i].Value())
  }

  class Coordinator {
    var active: OperationObject?
    var last: Option<Snapshot>
    var byID: map<nat, OperationObject>
    var history: seq<Snapshot>
    var maxHistory: nat
    var nextID: nat
    ghost var ops: seq<OperationObject>
    ghost var slot: Option<nat>
    ghost var recorded: seq<Snapshot>

    ghost predicate Valid()
      reads this
    {
      && nextID == |ops|
      && (forall i, j :: 0 <= i < j < |ops| ==> ops[i] != ops[j])
      && (slot.None? <==> active == null)
      && (slot.Some? ==> slot.value < |ops| && ops[slot.value] == active)
      && (forall id :: id in byID ==> 0 < id <= |ops| && byID[id] == ops[id - 1])
    }

    ghost function Model(): (c: Coord)
      reads this, ops
    {
      Coord(slot, last, byID.Keys, history, maxHistory, nextID, Values(ops), recorded)
    }

    constructor (max: nat)
      ensures Valid() && Model() == Initial(max)
    {
      active, last, byID, history, maxHistory, nextID := null, None, map[], [], max, 0;
      ops, slot, recorded := [], None, [];
    }

    method SubmitOperation(kind: Kind, now: nat) returns (r: Submission)
      requires Valid()
      modifies this
      ensures Valid() && r == Submitted(old(Model()), kind, now) && Model() == Submit(old(Model()), kind, now)
    {
      if active != null && Live(active.snap.phase) { return Conflict(active.snap); }
      var snap := Snapshot(nextID + 1, kind, Queued, now, now, 0, "operation queued", "");
      Enlist(snap);
      r := Accepted(snap);
    }

    method Enlist(snap: Snapshot)
      requires Valid() && snap.id == nextID + 1
      modifies this
      ensures Valid()
      ensures var c := old(Model());
              Model() == c.(nextID := snap.id, ops := c.ops + [Operation(snap, Spawned, 0)],
                            active := Some(|c.ops|), byID := c.byID + {snap.id})
    {
      nextID := snap.id;
      active := new OperationObject(snap);
      byID := byID[nextID := active];
      slot := Some(|ops|);
      ops := ops + [active];
      assert Values(ops) == old(Values(ops)) + [active.Value()];
    }

    /** A report of progress, also the one with which the goroutine begins. */
    method Update(ghost i: nat, op: OperationObject, phase: string, message: string, now: nat)
      requires Valid() && i < |ops| && ops[i] == op && !op.stage.Spawned?
      modifies op
      ensures Valid() && Model() == Next(old(Model()), DoReport(i, phase, message), now)
    {
      Report(op, phase, message, now);
      assert Values(ops) == old(Values(ops))[i := op.Value()];
    }

    method Begin(ghost i: nat, op: OperationObject, now: nat)
      requires Valid() && i < |ops| && ops[i] == op && op.stage.Spawned?
      modifies op
      ensures Valid() && Model() == Next(old(Model()), DoBegin(i), now)
    {
      Report(op, "running", "operation started", now);
      op.stage := Acting;
      assert Values(ops) == old(Values(ops))[i := op.Value()];
    }

    method Report(op: OperationObject, phase: string, message: string, now: nat)
      modifies op`snap
      ensures op.snap == Progressed(old(op.snap), phase, message, now)
    {
      if op.snap.phase != Queued && op.snap.phase != Running { return; }
      op.snap := op.snap.(phase := Running);
      if phase != "" { op.snap := op.snap.(message := phase + ": " + message); }
      else if message != "" { op.snap := op.snap.(message := message); }
      op.snap := op.snap.(updatedAt := now);
    }

    /** The first half of a conclusion, under the operation's own lock. */
    method Conclude(ghost i: nat, op: OperationObject, e: Ending, now: nat) returns (final: Option<Snapshot>)
      requires Valid() && i < |ops| && ops[i] == op && op.stage.Acting?
      modifies op
      ensures Valid() && Model() == Next(old(Model()), DoConclude(i, e), now)
      ensures final.Some? <==> Live(old(op.snap).phase)
      ensures final.Some? ==> op.stage == Concluded(final.value)
    {
      if op.snap.phase != Queued && op.snap.phase != Running {
        assert Values(ops) == old(Values(ops));
        return None;
      }
      var phase := Succeeded;
      if e.failed { phase := if e.cancelledError || e.contextCancelled then Cancelled else Failed; }
      else if e.contextOver { phase := Cancelled; }
      op.snap := op.snap.(phase := phase, message := MessageOf(phase), updatedAt := now, finishedAt := now);
      if e.failed || e.contextOver { op.snap := op.snap.(error := e.error); }
      op.stage := Concluded(op.snap);
      final := Some(op.snap);
      assert Values(ops) == old(Values(ops))[i := op.Value()];
    }

    method CloseDone(ghost i: nat, op: OperationObject)
      requires Valid() && i < |ops| && ops[i] == op && op.stage.Concluded?
      modifies op
      ensures Valid() && Model() == Next(old(Model()), DoRelease(i), 0)
    {
      op.stage, op.closes := Released(op.stage.final), op.closes + 1;
      assert Values(ops) == old(Values(ops))[i := op.Value()];
    }

    /** The second half, under the coordinator's lock. */
    method RecordFinal(ghost i: nat, op: OperationObject, snap: Snapshot)
      requires Valid() && i < |ops| && ops[i] == op && op.stage == Released(snap)
      modifies this, op
      ensures Valid() && Model() == Next(old(Model()), DoRecord(i), 0)
    {
      Append(snap);
      Detach(i, op);
    }

    method Append(snap: Snapshot)
      requires Valid()
      modifies this`last, this`history, this`byID, this`recorded
      ensures Valid() && Model() == Remember(old(Model()), snap)
    {
      last := Some(snap);
      recorded := recorded + [snap];
      history := history + [snap];
      if |history| > maxHistory {
        var cut := |history| - maxHistory;
        var pruned := history[..cut];
        history := history[cut..];
        ForgetAll(pruned);
      }
    }

    method ForgetAll(pruned: seq<Snapshot>)
      requires Valid()
      modifies this`byID
      ensures Valid() && byID.Keys == old(byID.Keys) - IDs(pruned)
    {
      for k := 0 to |pruned|
        invariant Valid() && byID.Keys == old(byID.Keys) - IDs(pruned[..k])
      {
        OneMore(pruned, k);
        byID := byID - {pruned[k].id};
      }
      assert pruned[..|pruned|] == pruned;
    }

    method Detach(ghost i: nat, op: OperationObject)
      requires Valid() && i < |ops| && ops[i] == op
      modifies this`active, this`slot, op`stage
      ensures Valid()
      ensures var c := With(old(Model()), i, old(Model()).ops[i].(stage := Stage.Recorded));
              Model() == if c.active == Some(i) then c.(active := None) else c
    {
      op.stage := Stage.Recorded;
      if active == op { active, slot := null, None; }
      assert Values(ops) == old(Values(ops))[i := op.Value()];
    }

    method CurrentSnapshot() returns (r: Option<Snapshot>)
      requires Valid()
      ensures r == OperationSpec.Current(Model())
    {
      if active != null { return Some(active.snap); }
      r := last;
    }

    method GetSnapshot(id: nat) returns (r: Option<Snapshot>)
      requires Valid()
      ensures r == OperationSpec.Get(Model(), id)
    {
      if id !in byID { return None; }
      r := Some(byID[id].snap);
    }
  }

  lemma OneMore(snaps: seq<Snapshot>, k: nat)
    requires k < |snaps|
    ensures IDs(snaps[..k + 1]) == IDs(snaps[..k]) + {snaps[k].id}
  {
    assert snaps[..k + 1] == snaps[..k] + [snaps[k]];
    Parts(snaps[..k], [snaps[k]]);
    assert snaps[k] in [snaps[k]];
  }
}
