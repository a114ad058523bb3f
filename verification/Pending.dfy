/** The dashboard's bookkeeping as it is written: loops that build, merge and filter
    differences, and an object that remembers what is pending. */
module PendingChanges {
  import opened Text
  import opened PendingSpec
  import opened PendingProofs

  method ChangedDevices(before: Values, after: Values) returns (keys: seq<string>)
    ensures keys == Sorted(ChangedDeviceKeys(before, after))
  {
    hide DeviceKey, Ascending;
    var found: set<string> := {};
    var left := before.Keys + after.Keys;
    while left != {}
      invariant left <= before.Keys + after.Keys
      invariant forall k :: k in found <==> k in ChangedDeviceKeys(before, after) && k !in left
      decreases left
    {
      var key :| key in left;
      if DeviceKey(key) && Changed(before, after, key) { found := found + {key}; }
      left := left - {key};
    }
    keys := Sort(found);
    SortedIsUnique(keys, Sorted(ChangedDeviceKeys(before, after)));
  }

  method Collect(keys: seq<string>, c: Class, known: seq<string>, darwin: bool) returns (wanted: bool)
    ensures wanted == Wants(keys, c, known, darwin)
  {
    hide Triggers;
    for i := 0 to |keys|
      invariant forall j :: 0 <= j < i ==> !Triggers(keys[j], c, known, darwin)
    {
      if Triggers(keys[i], c, known, darwin) { return true; }
    }
    wanted := false;
  }

  /** The changed keys in order, then their classes by weight. */
  method DiffValuesForOS(
      known: seq<string>, before: Values, after: Values, darwin: bool, service: bool) returns (d: ConfigDiff)
    ensures d == Diff(known, before, after, darwin, service)
  {
    hide Triggers, Wants, Sorted, ChangedDeviceKeys;
    var keys: seq<string> := [];
    for i := 0 to |known|
      invariant keys == Filter(known[..i], before, after)
    {
      assert known[..i + 1][..i] == known[..i];
      if Get(before, known[i]) != Get(after, known[i]) { keys := keys + [known[i]]; }
    }
    assert known[..|known|] == known;
    var devices := ChangedDevices(before, after);
    keys := keys + devices;
    d := Classify(keys, known, darwin, service);
  }

  method Classify(keys: seq<string>, known: seq<string>, darwin: bool, service: bool) returns (d: ConfigDiff)
    ensures d == ConfigDiff(keys, ClassesOf(keys, known, darwin, service))
  {
    hide Triggers, Wants, Only;
    var serviceRestart := Collect(keys, ServiceRestart, known, darwin);
    var classes := Only(serviceRestart || (!darwin && service), ServiceRestart);
    var restart := Collect(keys, RuntimeRestart, known, darwin);
    classes := AddIf(classes, restart, RuntimeRestart);
    var reconcile := Collect(keys, RuntimeReconcile, known, darwin);
    classes := AddIf(classes, reconcile, RuntimeReconcile);
    var update := Collect(keys, CredimiUpdate, known, darwin);
    classes := AddIf(classes, update, CredimiUpdate);
    d := ConfigDiff(keys, if keys == [] || classes == [] then [SavedOnly] else classes);
  }

  method AddIf(classes: seq<Class>, wanted: bool, c: Class) returns (r: seq<Class>)
    ensures r == classes + Only(wanted, c)
  {
    r := classes;
    if wanted { r := r + [c]; }
  }

  method AddMissing<T(==)>(into: seq<T>, more: seq<T>) returns (r: seq<T>)
    ensures r == AddAll(into, more)
  {
    r := into;
    for i := 0 to |more|
      invariant r == AddAll(into, more[..i])
    {
      assert more[..i + 1][..i] == more[..i];
      if more[i] !in r { r := r + [more[i]]; }
    }
    assert more[..|more|] == more;
  }

  method MergeConfigDiff(left: ConfigDiff, right: ConfigDiff) returns (merged: ConfigDiff)
    ensures merged == Merge(left, right)
  {
    var keys := AddMissing([], left.keys);
    keys := AddMissing(keys, right.keys);
    var classes := AddMissing([], left.classes);
    classes := AddMissing(classes, right.classes);
    merged := ConfigDiff(keys, classes);
  }

  method WithoutServiceClass(d: ConfigDiff) returns (filtered: ConfigDiff)
    ensures filtered == WithoutService(d)
  {
    var classes: seq<Class> := [];
    for i := 0 to |d.classes|
      invariant classes == Without(d.classes[..i], ServiceRestart)
    {
      assert d.classes[..i + 1][..i] == d.classes[..i];
      if d.classes[i] != ServiceRestart { classes := classes + [d.classes[i]]; }
    }
    assert d.classes[..|d.classes|] == d.classes;
    filtered := d.(classes := classes);
  }

  method AllKeys(d: ConfigDiff, light: string -> bool) returns (r: bool)
    ensures r == (d.keys != [] && forall key :: key in d.keys ==> light(key))
  {
    for i := 0 to |d.keys|
      invariant forall j :: 0 <= j < i ==> light(d.keys[j])
    {
      if !light(d.keys[i]) { return false; }
    }
    r := d.keys != [];
  }

  class Dashboard {
    const known: seq<string>
    const darwin: bool
    var current: Values
    var pending: ConfigDiff
    ghost var base: Values
    ghost var applied: Values
    ghost var built: Values

    ghost function Value(): Server
      reads this
    {
      Server(current, pending, base, applied, built)
    }

    /** Nothing that still has to be applied is forgotten. */
    ghost predicate Valid()
      reads this
    {
      MODE_KEY in known && Inv(known, Value(), darwin)
    }

    constructor (k: seq<string>, d: bool, v: Values)
      requires MODE_KEY in k
      ensures Valid() && Value() == Start(v) && known == k && darwin == d
    {
      known, darwin, current, pending := k, d, v, NO_DIFF;
      base, applied, built := v, v, v;
      new;
      StartInv(known, v, darwin);
    }

    /** Saves new settings and applies, or remembers, what changed. */
    method SaveConfig(next: Values, service: bool, a: Answers) returns (action: Action)
      requires Valid()
      modifies this
      ensures Valid() && Value() == Save(known, old(Value()), next, service, a, darwin)
      ensures var d := Diff(known, old(current), next, darwin, service);
              action == Decide(Merge(old(pending), ForPlatform(d, darwin)), ModeOf(next), a, darwin)
      ensures pending == NO_DIFF <== Clears(action)
    {
      hide Inv, Diff, Merge, Decide, ForPlatform;
      SaveInv(known, Value(), next, service, a, darwin);
      var d := DiffValuesForOS(known, current, next, darwin, service);
      current := next;
      action := ApplySavedConfig(d, a);
    }

    method ApplySavedConfig(d: ConfigDiff, a: Answers) returns (action: Action)
      modifies this`pending, this`base, this`applied, this`built
      ensures Value() == ApplySaved(old(Value()), d, a, darwin)
      ensures action == Decide(Merge(old(pending), ForPlatform(d, darwin)), ModeOf(current), a, darwin)
    {
      hide Merge, NeedsRuntimeApply, InactiveKey, EndpointKey, InventoryKey, ModeOf, Without;
      var mode := ModeOf(current);
      var incoming := d;
      if !darwin { incoming := WithoutServiceClass(d); }
      var merged := MergeConfigDiff(pending, incoming);
      if a.restartRequired {
        pending := merged;
        return ServiceFirst;
      }
      if darwin { merged := WithoutServiceClass(merged); }
      if !NeedsRuntimeApply(merged) {
        Clear();
        return NothingToApply;
      }
      if !a.desiredRunning {
        pending := merged;
        return RuntimeStopped;
      }
      if !a.loaded {
        pending := merged;
        return NotLoaded;
      }
      var inactive := AllKeys(merged, key => InactiveKey(key, mode));
      if inactive {
        Clear();
        return NobodyListens;
      }
      var how := Choose(merged, mode);
      if a.applied {
        applied := current;
        if how == Reconcile { built := current; }
        Clear();
      } else {
        pending := merged;
      }
      action := Tried(how, a.applied);
    }

    method Clear()
      modifies this`pending, this`base
      ensures pending == NO_DIFF && base == current
    {
      pending, base := NO_DIFF, current;
    }

    method Choose(d: ConfigDiff, mode: string) returns (how: How)
      ensures how == ChooseHow(d, mode)
    {
      hide EndpointKey, InventoryKey;
      var endpoint := AllKeys(d, EndpointKey);
      if mode == "manual" && endpoint { return ApplyEndpoint; }
      var inventory := AllKeys(d, key => InventoryKey(key, mode));
      how := if inventory then ApplyInventory else Reconcile;
    }
  }
}
