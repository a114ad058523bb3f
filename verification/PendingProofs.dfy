/** What every run of saves keeps: nothing that still has to be applied is forgotten. */
module PendingProofs {
  import opened Text
  import opened PendingSpec

  lemma {:induction false} AddAllContains<T>(into: seq<T>, more: seq<T>)
    ensures forall x :: x in AddAll(into, more) <==> x in into || x in more
  {
    if more != [] {
      AddAllContains(into, more[..|more| - 1]);
      assert more == more[..|more| - 1] + [more[|more| - 1]];
    }
  }

  lemma {:induction false} MergeContains(left: ConfigDiff, right: ConfigDiff)
    ensures forall k :: k in Merge(left, right).keys <==> k in left.keys || k in right.keys
    ensures forall c :: c in Merge(left, right).classes <==> c in left.classes || c in right.classes
  {
    AddAllContains([], left.keys);
    AddAllContains(AddAll([], left.keys), right.keys);
    AddAllContains([], left.classes);
    AddAllContains(AddAll([], left.classes), right.classes);
  }

  lemma {:induction false} WithoutContains(classes: seq<Class>, c: Class)
    ensures forall x :: x in Without(classes, c) <==> x in classes && x != c
  {
    if classes != [] {
      WithoutContains(classes[..|classes| - 1], c);
      assert classes == classes[..|classes| - 1] + [classes[|classes| - 1]];
    }
  }

  lemma {:induction false} FilterContains(keys: seq<string>, before: Values, after: Values)
    ensures forall k :: k in Filter(keys, before, after) <==> k in keys && Changed(before, after, k)
  {
    if keys != [] {
      FilterContains(keys[..|keys| - 1], before, after);
      assert keys == keys[..|keys| - 1] + [keys[|keys| - 1]];
    }
  }

  /** The difference lists exactly the tracked keys that changed. */
  lemma {:induction false} DiffKeys(known: seq<string>, before: Values, after: Values, darwin: bool, service: bool)
    ensures forall k :: k in Diff(known, before, after, darwin, service).keys
                <==> Tracked(known, k) && Changed(before, after, k)
  {
    hide DeviceKey;
    FilterContains(known, before, after);
  }

  /** And each class that a changed key brings; another one only for the service. */
  lemma {:induction false} DiffClasses(
      known: seq<string>, before: Values, after: Values, darwin: bool, service: bool, c: Class)
    requires c.RuntimeReconcile? || c.CredimiUpdate? || c.RuntimeRestart?
    ensures var d := Diff(known, before, after, darwin, service); c in d.classes <==> Wants(d.keys, c, known, darwin)
  {
    hide Filter, Sorted, Triggers;
  }

  // ---------------------------------------------------------------- the invariant

  /** Every change since pending was last cleared is pending. */
  ghost predicate Covers(known: seq<string>, s: Server) {
    forall k :: Tracked(known, k) && Changed(s.base, s.current, k) ==> k in s.pending.keys
  }

  predicate ForRuntime(c: Class) { c.RuntimeReconcile? || c.CredimiUpdate? || c.RuntimeRestart? }

  /** With every class that it brings to the runtime or to Credimi. */
  ghost predicate Classified(known: seq<string>, s: Server, darwin: bool) {
    forall k, c :: k in s.pending.keys && Triggers(k, c, known, darwin) && ForRuntime(c) ==> c in s.pending.classes
  }

  /** A setting with which a generation is built: only a reconcile brings it in. */
  predicate BuildKey(known: seq<string>, k: string, darwin: bool) {
    Triggers(k, RuntimeReconcile, known, darwin) && !DeviceKey(k)
  }

  ghost predicate Built(known: seq<string>, s: Server, darwin: bool) {
    forall k :: BuildKey(known, k, darwin) && Changed(s.built, s.current, k) ==> k in s.pending.keys
  }

  predicate ApplyKey(known: seq<string>, k: string, darwin: bool) {
    Triggers(k, RuntimeReconcile, known, darwin) || Triggers(k, CredimiUpdate, known, darwin)
  }

  /** What is not active yet is pending, or nobody listens to it. */
  ghost predicate Applied(known: seq<string>, s: Server, darwin: bool) {
    forall k :: ApplyKey(known, k, darwin) && Changed(s.applied, s.current, k) ==>
      k in s.pending.keys || InactiveKey(k, ModeOf(s.base))
  }

  ghost predicate Inv(known: seq<string>, s: Server, darwin: bool) {
    Covers(known, s) && Classified(known, s, darwin) && Built(known, s, darwin) && Applied(known, s, darwin)
  }

  lemma {:induction false} StartInv(known: seq<string>, v: Values, darwin: bool)
    ensures Inv(known, Start(v), darwin)
  {
    hide Triggers, DeviceKey;
  }

  // ---------------------------------------------------------------- facts about the fields

  /** The settings that a light apply brings in are none with which a generation is built. */
  lemma {:induction false} LightIsLight(known: seq<string>, k: string, mode: string, darwin: bool)
    requires EndpointKey(k) || InventoryKey(k, mode)
    ensures !BuildKey(known, k, darwin)
  {
    hide StartsWith, EndsWith;
    if StartsWith(k, "CREDIMI_DEVICE_") { NoDeviceField(k); }
  }

  lemma {:induction false} NoDeviceField(k: string)
    requires StartsWith(k, "CREDIMI_DEVICE_")
    ensures !RuntimeField(k) && !ListenerField(k)
  {
    assert k[8] == 'D' && |k| >= 15 && k[0] == 'C' && k[9] == 'E' && k[10] == 'V';
  }

  lemma {:induction false} ModeKeyIsHeavy(known: seq<string>, mode: string, darwin: bool)
    requires MODE_KEY in known
    ensures !InactiveKey(MODE_KEY, mode) && !EndpointKey(MODE_KEY) && !InventoryKey(MODE_KEY, mode)
    ensures Triggers(MODE_KEY, RuntimeReconcile, known, darwin)
  {
    assert MODE_KEY[8] == 'S' && "CREDIMI_DEVICE_"[8] == 'D';
  }

  // ---------------------------------------------------------------- one save

  /** After a save and before any apply everything new is in the merged difference. */
  lemma {:induction false} MergedInv(known: seq<string>, s: Server, next: Values, service: bool, darwin: bool)
    requires Inv(known, s, darwin)
    ensures var d := Diff(known, s.current, next, darwin, service);
            Inv(known, s.(current := next, pending := Merge(s.pending, ForPlatform(d, darwin))), darwin)
  {
    hide Triggers, DeviceKey, Diff, InactiveKey, Merge, Get;
    var d := Diff(known, s.current, next, darwin, service);
    var p := ForPlatform(d, darwin);
    var q := s.(current := next, pending := Merge(s.pending, p));
    MergeContains(s.pending, p);
    DiffKeys(known, s.current, next, darwin, service);
    WithoutContains(d.classes, ServiceRestart);
    forall k, c | k in d.keys && Triggers(k, c, known, darwin) && ForRuntime(c) ensures c in p.classes {
      DiffClasses(known, s.current, next, darwin, service, c);
    }
    forall k | BuildKey(known, k, darwin)
      ensures Tracked(known, k) { TriggersTracked(known, k, RuntimeReconcile, darwin); }
    forall k | ApplyKey(known, k, darwin) ensures Tracked(known, k) { ApplyTracked(known, k, darwin); }
  }

  lemma {:induction false} TriggersTracked(known: seq<string>, k: string, c: Class, darwin: bool)
    requires Triggers(k, c, known, darwin)
    ensures Tracked(known, k)
  {
    hide DeviceKey;
  }

  lemma {:induction false} ApplyTracked(known: seq<string>, k: string, darwin: bool)
    requires ApplyKey(known, k, darwin)
    ensures Tracked(known, k)
  {
    hide Triggers;
    if Triggers(k, RuntimeReconcile, known, darwin) { TriggersTracked(known, k, RuntimeReconcile, darwin); }
    else { TriggersTracked(known, k, CredimiUpdate, darwin); }
  }

  lemma {:induction false} StripInv(known: seq<string>, s: Server, darwin: bool)
    requires Inv(known, s, darwin)
    ensures Inv(known, s.(pending := WithoutService(s.pending)), darwin)
  {
    hide Triggers, DeviceKey, InactiveKey, ModeOf;
    WithoutContains(s.pending.classes, ServiceRestart);
  }

  /** While the mode itself is not pending, it is the one of the last clear. */
  lemma {:induction false} SameMode(known: seq<string>, s: Server)
    requires Covers(known, s) && MODE_KEY in known && MODE_KEY !in s.pending.keys
    ensures ModeOf(s.base) == ModeOf(s.current)
  {
    hide DeviceKey;
    assert Tracked(known, MODE_KEY);
  }

  lemma {:induction false} NothingToApplyInv(known: seq<string>, s: Server, darwin: bool)
    requires Inv(known, s, darwin) && MODE_KEY in known && !NeedsRuntimeApply(s.pending)
    ensures Inv(known, s.(pending := NO_DIFF, base := s.current), darwin)
  {
    hide Triggers, DeviceKey, InactiveKey, ModeOf;
    forall k | k in s.pending.keys
      ensures !Triggers(k, RuntimeReconcile, known, darwin) && !Triggers(k, CredimiUpdate, known, darwin) { }
    ModeKeyIsHeavy(known, "", darwin);
    SameMode(known, s);
  }

  lemma {:induction false} NobodyListensInv(known: seq<string>, s: Server, darwin: bool)
    requires Inv(known, s, darwin) && MODE_KEY in known && InactiveOnly(s.pending, ModeOf(s.current))
    ensures Inv(known, s.(pending := NO_DIFF, base := s.current), darwin)
  {
    hide Triggers, DeviceKey, InactiveKey, ModeOf;
    var mode := ModeOf(s.current);
    ModeKeyIsHeavy(known, mode, darwin);
    SameMode(known, s);
    forall k | k in s.pending.keys ensures !BuildKey(known, k, darwin) { LightIsLight(known, k, mode, darwin); }
  }

  lemma {:induction false} LightApplyInv(known: seq<string>, s: Server, darwin: bool)
    requires Inv(known, s, darwin) && MODE_KEY in known
    requires EndpointOnly(s.pending, ModeOf(s.current)) || InventoryOnly(s.pending, ModeOf(s.current))
    ensures Inv(known, s.(pending := NO_DIFF, base := s.current, applied := s.current), darwin)
  {
    hide Triggers, DeviceKey, InactiveKey, ModeOf, EndpointKey, InventoryKey;
    forall k | k in s.pending.keys
      ensures !BuildKey(known, k, darwin) { LightIsLight(known, k, ModeOf(s.current), darwin); }
  }

  lemma {:induction false} ReconcileInv(known: seq<string>, s: Server, darwin: bool)
    ensures Inv(known, s.(pending := NO_DIFF, base := s.current, applied := s.current, built := s.current), darwin)
  {
    hide Triggers, DeviceKey, InactiveKey;
  }

  /** A save keeps the invariant, whatever is answered during it. */
  lemma {:induction false} SaveInv(known: seq<string>, s: Server, next: Values, service: bool, a: Answers, darwin: bool)
    requires Inv(known, s, darwin) && MODE_KEY in known
    ensures Inv(known, Save(known, s, next, service, a, darwin), darwin)
  {
    hide Inv, Diff, Merge, ForPlatform, EndpointOnly, InventoryOnly, InactiveOnly, NeedsRuntimeApply, ModeOf;
    var merged := Merge(s.pending, ForPlatform(Diff(known, s.current, next, darwin, service), darwin));
    var q := s.(current := next, pending := merged);
    MergedInv(known, s, next, service, darwin);
    StripInv(known, q, darwin);
    var r := if darwin then q.(pending := WithoutService(merged)) else q;
    var mode := ModeOf(next);
    if !NeedsRuntimeApply(r.pending) { NothingToApplyInv(known, r, darwin); }
    if InactiveOnly(r.pending, mode) { NobodyListensInv(known, r, darwin); }
    if EndpointOnly(r.pending, mode) || InventoryOnly(r.pending, mode) { LightApplyInv(known, r, darwin); }
    ReconcileInv(known, r, darwin);
  }

  // ---------------------------------------------------------------- whole runs

  datatype SaveStep = SaveStep(next: Values, service: bool, a: Answers)

  ghost function Run(known: seq<string>, s: Server, steps: seq<SaveStep>, darwin: bool): Server {
    if steps == [] then s
    else
      var last := steps[|steps| - 1];
      Save(known, Run(known, s, steps[..|steps| - 1], darwin), last.next, last.service, last.a, darwin)
  }

  lemma {:induction false} RunInv(known: seq<string>, v: Values, steps: seq<SaveStep>, darwin: bool)
    requires MODE_KEY in known
    ensures Inv(known, Run(known, Start(v), steps, darwin), darwin)
  {
    hide Inv, Save;
    if steps == [] { StartInv(known, v, darwin); }
    else {
      var last := steps[|steps| - 1];
      RunInv(known, v, steps[..|steps| - 1], darwin);
      SaveInv(known, Run(known, Start(v), steps[..|steps| - 1], darwin), last.next, last.service, last.a, darwin);
    }
  }

  /** Over any run of saves, what is pending covers the direct difference from the
      settings at the last clear to the current ones: its keys and its runtime and
      Credimi classes. */
  lemma {:induction false} PendingCoversDirectDiff(
      known: seq<string>, v: Values, steps: seq<SaveStep>, darwin: bool, service: bool)
    requires MODE_KEY in known
    ensures var s := Run(known, Start(v), steps, darwin); var d := Diff(known, s.base, s.current, darwin, service);
            && (forall k :: k in d.keys ==> k in s.pending.keys)
            && (forall c :: c in d.classes && ForRuntime(c) ==> c in s.pending.classes)
  {
    hide Run, Diff, Triggers, Built, Applied, DeviceKey;
    var s := Run(known, Start(v), steps, darwin);
    RunInv(known, v, steps, darwin);
    DiffKeys(known, s.base, s.current, darwin, service);
    var d := Diff(known, s.base, s.current, darwin, service);
    forall c | c in d.classes && ForRuntime(c) ensures c in s.pending.classes {
      DiffClasses(known, s.base, s.current, darwin, service, c);
    }
  }

  /** When nothing is pending, the generation was built with the current value of every
      setting that only a reconcile brings in, and every other runtime or Credimi
      setting is active, but for exposure settings that the mode does not read. */
  lemma {:induction false} NothingPendingMeansCurrent(
      known: seq<string>, v: Values, steps: seq<SaveStep>, darwin: bool, k: string)
    requires MODE_KEY in known && Run(known, Start(v), steps, darwin).pending.keys == []
    ensures var s := Run(known, Start(v), steps, darwin);
            && (BuildKey(known, k, darwin) ==> Get(s.built, k) == Get(s.current, k))
            && (ApplyKey(known, k, darwin) ==>
                 Get(s.applied, k) == Get(s.current, k) || InactiveKey(k, ModeOf(s.current)))
  {
    hide Run, Triggers, DeviceKey, InactiveKey, ModeOf, Classified;
    var s := Run(known, Start(v), steps, darwin);
    RunInv(known, v, steps, darwin);
    SameMode(known, s);
  }

  /** Pending changes are dropped only by an apply that succeeded, when they concern
      neither runtime nor Credimi, or when nobody listens to any of them. */
  lemma {:induction false} ClearedOnlyWhenDone(s: Server, d: ConfigDiff, a: Answers, darwin: bool)
    requires ApplySaved(s, d, a, darwin).pending.keys == [] && Merge(s.pending, ForPlatform(d, darwin)).keys != []
    ensures var p := Merge(s.pending, ForPlatform(d, darwin));
            || (!a.restartRequired && a.desiredRunning && a.loaded && a.applied)
            || !NeedsRuntimeApply(p)
            || (forall k :: k in p.keys ==> InactiveKey(k, ModeOf(s.current)))
  {
    hide Merge, ForPlatform, InactiveKey, ModeOf;
    var p := Merge(s.pending, ForPlatform(d, darwin));
    WithoutContains(p.classes, ServiceRestart);
  }

  /** A light apply is tried only if every accumulated key is in the light set of the very
      path that is taken, the endpoint's only in manual mode; then no accumulated key
      asks for a new generation. */
  lemma {:induction false} LightOnlyIfAllLight(
      known: seq<string>, s: Server, d: ConfigDiff, a: Answers, darwin: bool, k: string)
    requires var p := Merge(s.pending, ForPlatform(d, darwin));
             var action := Decide(p, ModeOf(s.current), a, darwin);
             action.Tried? && !action.how.Reconcile? && k in p.keys
    ensures var how := Decide(Merge(s.pending, ForPlatform(d, darwin)), ModeOf(s.current), a, darwin).how;
            && (how.ApplyEndpoint? ==> ModeOf(s.current) == "manual" && EndpointKey(k))
            && (how.ApplyInventory? ==> InventoryKey(k, ModeOf(s.current)))
    ensures !BuildKey(known, k, darwin)
  {
    hide Merge, ForPlatform, ModeOf, InventoryKey, EndpointKey, NeedsRuntimeApply, InactiveOnly, BuildKey;
    LightIsLightIf(known, k, ModeOf(s.current), darwin);
  }

  lemma {:induction false} LightIsLightIf(known: seq<string>, k: string, mode: string, darwin: bool)
    ensures EndpointKey(k) || InventoryKey(k, mode) ==> !BuildKey(known, k, darwin)
  {
    hide BuildKey, EndpointKey, InventoryKey;
    if EndpointKey(k) || InventoryKey(k, mode) { LightIsLight(known, k, mode, darwin); }
  }
}
