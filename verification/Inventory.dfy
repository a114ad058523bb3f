/** The inventory as it is computed: keys in whatever order the map yields them, blocks
    that are filled and changed in place, and what has been seen so far. */
module InventoryParsing {
  import opened Wrappers
  import opened Text
  import opened Numbers
  import opened ConfigSpec
  import opened InventoryProofs
  import opened InventoryResave

  // ---------------------------------------------------------------- what has been seen

  datatype Seen = Seen(ids: set<string>, names: set<string>, ports: set<string>, containers: set<string>,
                       paths: set<string>,
                       serials: set<string>, emulator: bool, simulator: bool)

  const NOTHING := Seen({}, {}, {}, {}, {}, {}, false, false)

  function Noted(seen: set<string>, s: string): set<string> { if Trim(s) == "" then seen else seen + {s} }

  function Note(s: Seen, t: Target): Seen {
    Seen(s.ids + {t.id}, Noted(s.names, t.name), Noted(s.ports, In(t.values, PORT)),
         Noted(s.containers, In(t.values, CONTAINER_NAME)),
         Noted(s.paths, In(t.values, WORK_DIR)), if HasSerial(t) then s.serials + {t.serial} else s.serials,
         s.emulator || t.typ == "android_emulator", s.simulator || t.typ == "ios_simulator")
  }

  predicate Hit(seen: set<string>, s: string) { Trim(s) != "" && s in seen }

  predicate Blocked(s: Seen, t: Target) {
    || t.id in s.ids || Hit(s.names, t.name) || Hit(s.ports, In(t.values, PORT))
    || Hit(s.containers, In(t.values, CONTAINER_NAME))
    || Hit(s.paths, In(t.values, WORK_DIR)) || (HasSerial(t) && t.serial in s.serials)
    || (t.typ == "android_emulator" && s.emulator) || (t.typ == "ios_simulator" && s.simulator)
  }

  function Collect(ts: seq<Target>): Seen { if ts == [] then NOTHING else Note(Collect(ts[..|ts| - 1]), ts[|ts| - 1]) }

  lemma {:induction false} NoteBlocks(s: Seen, t: Target, u: Target)
    ensures Blocked(Note(s, t), u) <==> Blocked(s, u) || Clash(t, u)
  {
    hide Trim;
  }

  /** The sets of what was seen say exactly whether some earlier target clashes. */
  lemma {:induction false} BlockedExactly(ts: seq<Target>, t: Target)
    ensures Blocked(Collect(ts), t) <==> exists j :: 0 <= j < |ts| && Clash(ts[j], t)
  {
    hide Blocked, Clash, Note;
    assert !Blocked(NOTHING, t) by { NothingBlocks(t); }
    if ts != [] {
      var n := |ts| - 1;
      BlockedExactly(ts[..n], t);
      NoteBlocks(Collect(ts[..n]), ts[n], t);
      assert ts == ts[..n] + [ts[n]];
    }
  }

  lemma NothingBlocks(t: Target)
    ensures !Blocked(NOTHING, t)
  {
  }

  // ---------------------------------------------------------------- what a refusal means

  lemma {:induction false} RefusedEarly(rid: string, v: Values, i: nat, n: nat)
    requires ReadTargets(rid, v, i) == None && i <= n
    ensures ReadTargets(rid, v, n) == None
  {
    hide ReadTarget, BlockOf;
    if i < n { RefusedEarly(rid, v, i, n - 1); }
  }

  lemma {:induction false} PrefixOf(rid: string, v: Values, i: nat, n: nat)
    requires i <= n && ReadTargets(rid, v, n).Some?
    ensures ReadTargets(rid, v, i).Some? && ReadTargets(rid, v, i).value <= ReadTargets(rid, v, n).value
    ensures |ReadTargets(rid, v, n).value| == n
  {
    hide ReadTarget, BlockOf;
    if i < n { PrefixOf(rid, v, i, n - 1); }
    else if n > 0 { PrefixOf(rid, v, n - 1, n - 1); }
  }

  lemma {:induction false} ClashRefuses(rid: string, v: Values, i: nat, n: nat)
    requires i <= n && ReadTargets(rid, v, i).Some? && !Compatible(ReadTargets(rid, v, i).value)
    ensures ReadTargets(rid, v, n).None? || !Compatible(ReadTargets(rid, v, n).value)
  {
    hide ReadTarget, BlockOf, Clash;
    if ReadTargets(rid, v, n).Some? {
      PrefixOf(rid, v, i, n);
      var a, b := ReadTargets(rid, v, i).value, ReadTargets(rid, v, n).value;
      var x, y :| 0 <= x < y < |a| && Clash(a[x], a[y]);
      assert b[x] == a[x] && b[y] == a[y];
    }
  }

  // ---------------------------------------------------------------- blocks

  /** The blocks gathered from the keys that are not left. */
  ghost predicate Gathered(v: Values, left: set<Key>, blocks: map<nat, Block>) {
    && (forall i, s :: i in blocks && s in blocks[i] <==> Dev(i, s) in v && Dev(i, s) !in left)
    && (forall i, s :: i in blocks && s in blocks[i] ==> blocks[i][s] == Trim(v[Dev(i, s)]))
    && (forall i :: i in blocks ==> blocks[i] != map[])
  }

  method GatherBlocks(v: Values, count: nat) returns (blocks: Option<map<nat, Block>>)
    ensures blocks.None? <==> exists k :: k in v && !KeyAllowed(k, count)
    ensures blocks.Some? ==> Gathered(v, {}, blocks.value)
  {
    hide Trim, KeyAllowed;
    var gathered: map<nat, Block> := map[];
    var left := v.Keys;
    while left != {}
      invariant left <= v.Keys && Gathered(v, left, gathered)
      invariant forall k :: k in v && k !in left ==> KeyAllowed(k, count)
      decreases left
    {
      var k :| k in left;
      if !KeyAllowed(k, count) { return None; }
      if k.Dev? { gathered := AddToBlock(v, left, gathered, k); }
      left := left - {k};
    }
    blocks := Some(gathered);
  }

  method AddToBlock(v: Values, ghost left: set<Key>, blocks: map<nat, Block>, k: Key) returns (r: map<nat, Block>)
    requires k in v && k in left && k.Dev? && Gathered(v, left, blocks)
    ensures Gathered(v, left - {k}, r)
  {
    hide Trim;
    var block: Block := if k.index in blocks then blocks[k.index] else map[];
    block := block[k.suffix := Trim(v[k])];
    r := blocks[k.index := block];
    assert k == Dev(k.index, k.suffix) && k.suffix in block;
    forall i, s ensures i in r && s in r[i] <==> Dev(i, s) in v && Dev(i, s) !in left - {k} {
      if i == k.index && s != k.suffix { assert Dev(i, s) != k; }
    }
  }

  lemma {:induction false} GatheredBlock(v: Values, blocks: map<nat, Block>, i: nat)
    requires Gathered(v, {}, blocks)
    ensures BlockOf(v, i) == if i in blocks then blocks[i] else map[]
  {
    hide Trim;
    forall s ensures s in BlockOf(v, i) <==> Dev(i, s) in v { BlockHas(v, i, s); }
    forall s | Dev(i, s) in v ensures BlockOf(v, i)[s] == Trim(v[Dev(i, s)]) { BlockHas(v, i, s); }
  }

  /** Accepts and returns the same whatever the order of the keys. */
  method ParseRunnerRuntimeConfig(v: Values) returns (r: Option<Inventory>)
    ensures r == ReadInventory(v)
  {
    hide CanonicalID, Trim, ReadInt, KeyAllowed, Compatible, ReadTargets, ReadTarget, BlockOf, Gathered;
    var count := ReadInt(Trim(Get(v, Count)));
    if count.None? || count.value < 1 { return None; }
    var runnerID := CanonicalID(Get(v, RUNNER_ID_KEY));
    if runnerID == "" { return None; }
    var blocks := GatherBlocks(v, count.value);
    if blocks.None? { return None; }
    var targets := ParseTargets(v, runnerID, count.value, blocks.value);
    if targets.None? { return None; }
    r := Some(Inventory(runnerID, targets.value));
  }

  lemma NoTargets()
    ensures Compatible([])
  {
  }

  lemma {:induction false} StillCompatible(ts: seq<Target>, t: Target)
    requires Compatible(ts) && forall j :: 0 <= j < |ts| ==> !Clash(ts[j], t)
    ensures Compatible(ts + [t])
  {
    hide Clash;
  }

  lemma {:induction false} ClashesNow(ts: seq<Target>, t: Target, j: nat)
    requires j < |ts| && Clash(ts[j], t)
    ensures !Compatible(ts + [t])
  {
    hide Clash;
    assert (ts + [t])[j] == ts[j] && (ts + [t])[|ts|] == t;
  }

  method ParseTargets(v: Values, runnerID: string, count: nat, blocks: map<nat, Block>) returns (r: Option<seq<Target>>)
    requires Gathered(v, {}, blocks)
    ensures var ts := ReadTargets(runnerID, v, count); r == if ts.Some? && Compatible(ts.value) then ts else None
  {
    hide Gathered, Blocked, Note, Clash, Compatible, ReadTarget, BlockOf;
    var targets: seq<Target> := [];
    var seen := NOTHING;
    NoTargets();
    for index := 1 to count + 1
      invariant ReadTargets(runnerID, v, index - 1) == Some(targets)
      invariant Compatible(targets) && seen == Collect(targets)
    {
      GatheredBlock(v, blocks, index);
      var t := ReadTarget(runnerID, index, if index in blocks then blocks[index] else map[]);
      if t.None? {
        RefusedEarly(runnerID, v, index, count);
        return None;
      }
      BlockedExactly(targets, t.value);
      ghost var before := targets;
      targets := targets + [t.value];
      if Blocked(seen, t.value) {
        ghost var j :| 0 <= j < |before| && Clash(before[j], t.value);
        ClashesNow(before, t.value, j);
        ClashRefuses(runnerID, v, index, count);
        return None;
      }
      StillCompatible(before, t.value);
      assert targets[..|before|] == before;
      seen := Note(seen, t.value);
    }
    r := Some(targets);
  }

  // ---------------------------------------------------------------- limits

  predicate Serialised(t: Target) { Trim(t.typ) in {"android_phone", "redroid"} && Trim(t.serial) != "" }

  method ValidateDeviceConstraints(ts: seq<Target>) returns (ok: bool)
    ensures ok == WithinLimits(ts)
  {
    hide Trim;
    var serials: set<string> := {};
    var emulator, simulator := false, false;
    for k := 0 to |ts|
      invariant forall i, j :: 0 <= i < j < k ==> !OverLimit(ts[i], ts[j])
      invariant emulator <==> exists i :: 0 <= i < k && Trim(ts[i].typ) == "android_emulator"
      invariant simulator <==> exists i :: 0 <= i < k && Trim(ts[i].typ) == "ios_simulator"
      invariant forall s :: s in serials <==> exists i :: 0 <= i < k && Serialised(ts[i]) && Trim(ts[i].serial) == s
    {
      var t := ts[k];
      var serial := Trim(t.serial);
      if (Trim(t.typ) == "android_emulator" && emulator) || (Trim(t.typ) == "ios_simulator" && simulator)
         || (Serialised(t) && serial in serials) {
        ghost var i :| 0 <= i < k && OverLimit(ts[i], t);
        return false;
      }
      if Trim(t.typ) == "android_emulator" { emulator := true; }
      if Trim(t.typ) == "ios_simulator" { simulator := true; }
      if Serialised(t) { serials := serials + {serial}; }
    }
    ok := true;
  }

  // ---------------------------------------------------------------- saving

  method FillBlanks(host: Values, defaults: Values) returns (values: Values)
    ensures values == FillDefaults(host, defaults)
  {
    hide Trim;
    assert Trim("") == "" by { TrimTrims(""); }
    values := map k | k in host && k.Host? :: host[k];
    var left := set k | k in defaults && k.Host?;
    ghost var all := left;
    while left != {}
      invariant left <= all
      invariant forall k :: k in values <==> k.Host? && (k in host || (k in all && k !in left))
      invariant forall k :: k in values ==>
          values[k] == if k in defaults && k !in left && Trim(Get(host, k)) == "" then defaults[k] else Get(host, k)
      decreases left
    {
      var k :| k in left;
      if Trim(Get(values, k)) == "" { values := values[k := defaults[k]]; }
      left := left - {k};
    }
  }

  method ValuesWithRuntimeDevices(p: Platform, defaults: Values, host: Values, ts: seq<Target>) returns (values: Values)
    ensures values == Resave(p, defaults, host, ts)
  {
    hide FillDefaults, Rewrite, Prefixed, ShowNat;
    values := FillBlanks(host, defaults);
    values := values[Count := ShowNat(|ts|)];
    ghost var start := values;
    for i := 0 to |ts|
      invariant values == PutTargets(p, start, ts[..i])
    {
      assert ts[..i + 1][..i] == ts[..i];
      var block := BlockToSave(p, ts[i]);
      values := CopyBlock(values, i + 1, block);
    }
    assert ts[..|ts|] == ts;
  }

  method CopyBlock(v: Values, i: nat, b: Block) returns (values: Values)
    ensures values == v + Prefixed(i, b)
  {
    values := v;
    var left := b.Keys;
    while left != {}
      invariant left <= b.Keys
      invariant forall k :: k in values <==> k in v || (k.Dev? && k.index == i && k.suffix in b && k.suffix !in left)
      invariant forall k :: k in values ==>
          values[k] == if k.Dev? && k.index == i && k.suffix in b && k.suffix !in left then b[k.suffix] else v[k]
      decreases left
    {
      var s :| s in left;
      values := values[Dev(i, s) := b[s]];
      left := left - {s};
    }
    PrefixedKeys(i, b);
  }

  /** The settings of one target, address last. */
  method BlockToSave(p: Platform, t: Target) returns (b: Block)
    ensures b == Rewrite(p, t)
  {
    hide Trim, WiFiSerial, SSHArgs, ShowBool, EffectiveKnownHosts;
    b := t.values[ID := t.id][NAME := t.name][DESCRIPTION := t.description][TYPE := t.typ]
        [MODE := t.mode][ENABLED := ShowBool(t.enabled)];
    b := b - {SERIAL, WIFI_IP, WIFI_PORT, AVD_NAME};
    if t.typ == "redroid" || (t.typ == "android_phone" && t.mode == "wifi") {
      var port := Trim(t.wifiPort);
      if port == "" { port := DEFAULT_PORT; }
      b := b[WIFI_IP := Trim(t.wifiIP)][WIFI_PORT := port][SERIAL := WiFiSerial(t.wifiIP, port)];
      if t.typ == "redroid" {
        var path := EffectiveKnownHosts(p, In(t.values, SSH_TARGET), In(t.values, SSH_KNOWN_HOSTS));
        b := b[SSH_KNOWN_HOSTS := path][SSH_ARGS := SSHArgs(path)];
      }
    } else if t.typ == "android_phone" && t.mode == "usb" {
      if Trim(t.serial) != "" { b := b[SERIAL := Trim(t.serial)]; }
    } else if t.typ == "android_emulator" {
      var baseName := Trim(In(t.values, BASE_NAME));
      if baseName != "" { b := b[BASE_NAME := baseName][AVD_NAME := baseName]; }
    }
  }
}
