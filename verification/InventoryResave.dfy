/** Loading an inventory and saving it again: after the first time nothing changes,
    exactly under the conditions found here. */
module InventoryResave {
  import opened Wrappers
  import opened Text
  import opened Numbers
  import opened ConfigSpec
  import opened InventoryProofs

  const RUNNER_ID_KEY := Host(KRunner(SRunnerID))

  // ---------------------------------------------------------------- what is saved

  /** Host settings only, with defaults for the blank ones. */
  function FillDefaults(host: Values, defaults: Values): Values {
    map k | k in host.Keys + defaults.Keys && k.Host? ::
      if k in defaults && Trim(Get(host, k)) == "" then defaults[k] else Get(host, k)
  }

  function Prefixed(i: nat, b: Block): Values { map k | k in (set s | s in b :: Dev(i, s)) :: b[k.suffix] }

  function PutTargets(p: Platform, v: Values, ts: seq<Target>): Values {
    if ts == [] then v else PutTargets(p, v, ts[..|ts| - 1]) + Prefixed(|ts|, Rewrite(p, ts[|ts| - 1]))
  }

  function Resave(p: Platform, defaults: Values, host: Values, ts: seq<Target>): Values {
    PutTargets(p, FillDefaults(host, defaults)[Count := ShowNat(|ts|)], ts)
  }

  /** The settings as loading hands them on: with the canonical runner ID. */
  function HostOf(v: Values): Values { v[RUNNER_ID_KEY := CanonicalID(Get(v, RUNNER_ID_KEY))] }

  function SaveLoaded(p: Platform, defaults: Values, v: Values): Option<Values> {
    match ReadInventory(v)
    case None => None
    case Some(inventory) => Some(Resave(p, defaults, HostOf(v), inventory.targets))
  }

  // ---------------------------------------------------------------- one target

  lemma {:induction false} RunnerStart(rid: string)
    requires rid != "" && CanonicalID(rid) == rid
    ensures !Space(rid[0]) && rid[0] != '/'
  {
    IDTrimmed(rid);
    TrimTrims(rid);
  }

  lemma {:induction false} ChildCanonical(rid: string, raw: string)
    requires rid != "" && CanonicalID(rid) == rid && rid + "/" <= CanonicalID(raw)
    ensures CanonicalID(CanonicalID(raw)) == CanonicalID(raw) && Trim(CanonicalID(raw)) != ""
  {
    hide Trim;
    var id := CanonicalID(raw);
    RunnerStart(rid);
    TrimTrims(raw);
    assert id[0] == rid[0];
    assert !Space(id[|id| - 1]) by { assert id[|id| - 1] == Trim(raw)[|Trim(raw)| - 1]; }
    TrimTrims(id);
  }

  lemma {:induction false} SettleTrimmed(b: Block, id: string)
    requires AllTrimmed(b) && Trimmed(id) && AllListed(b)
    ensures AllTrimmed(Settle(b, id)) && AllListed(Settle(b, id))
  {
    hide Trim, WiFiSerial, AddressOf;
    AddressTrimmed(b[ID := id]);
    AddressTrimmed(b[ID := id][AVD_NAME := Trim(In(b[ID := id], BASE_NAME))]);
    TrimTrims(In(b, BASE_NAME));
  }

  lemma {:induction false} InTrimmed(b: Block, s: Suffix)
    requires AllTrimmed(b)
    ensures Trimmed(In(b, s)) && Trim(In(b, s)) == In(b, s)
  {
    TrimTrims(In(b, s));
  }

  lemma {:induction false} ReadIsSettled(rid: string, i: nat, b: Block)
    requires rid != "" && CanonicalID(rid) == rid && AllTrimmed(b) && AllListed(b) && ReadTarget(rid, i, b).Some?
    ensures Settled(rid, ReadTarget(rid, i, b).value)
  {
    hide Trim, Settle, WiFiSerial, CanonicalID, ReadFlag, AllTrimmed, AllListed, HasSpace;
    var t := ReadTarget(rid, i, b).value;
    ChildCanonical(rid, In(b, ID));
    IDTrimmed(t.id);
    SettleTrimmed(b, t.id);
    InTrimmed(b, NAME);
    InTrimmed(b, DESCRIPTION);
    InTrimmed(b, TYPE);
    InTrimmed(b, MODE);
    InTrimmed(b, SSH_KNOWN_HOSTS);
    KnownHostsKept(b, t.id);
    AddressTrimmed(b);
    assert !HasSpace("") by { NoSpaceInNothing(); }
  }

  lemma NoSpaceInNothing()
    ensures !HasSpace("")
  {
  }

  lemma {:induction false} KnownHostsKept(b: Block, id: string)
    ensures In(Settle(b, id), SSH_KNOWN_HOSTS) == In(b, SSH_KNOWN_HOSTS)
  {
    hide Trim, AddressOf;
  }

  lemma {:induction false} AddressTrimmed(b: Block)
    ensures var a := AddressOf(b); Trimmed(a.serial) && Trimmed(a.ip) && Trimmed(a.port)
  {
    hide Trim, WiFiSerial;
    forall s ensures Trimmed(Trim(s)) { TrimTrims(s); }
    SerialTrimmed(Trim(In(b, WIFI_IP)), if Trim(In(b, WIFI_PORT)) == "" then DEFAULT_PORT else Trim(In(b, WIFI_PORT)));
  }

  /** Reading the saved block. */
  lemma {:induction false} Rereads(p: Platform, rid: string, i: nat, t: Target)
    requires Settled(rid, t) && PlatformFits(p)
    ensures var r := ReadTarget(rid, i, Rewrite(p, t)); var b := Rewrite(p, t); var a := AddressOf(b);
            && (r.Some? <==> Passes(p, t))
            && (r.Some? ==>
                 r.value == Target(i, t.id, t.name, t.description, t.typ, t.mode, t.enabled, a.serial, a.ip, a.port, b))
  {
    hide Rewrite, Settle, AddressOf, Trim, HasSpace, ReadBool, ShowBool, CanonicalID, PathOf;
    var b := Rewrite(p, t);
    RewriteKeeps(p, t);
    RewriteTrimmed(p, rid, t);
    BoolRoundTrip(t.enabled);
    InTrimmed(b, SSH_KNOWN_HOSTS);
    InTrimmed(b, ENABLED);
    assert !HasSpace("") by { NoSpaceInNothing(); }
    if IsWiFi(t) { WiFiSettled(p, rid, t); }
    else if t.typ == "redroid" { RedroidSettled(p, rid, t); }
    else if t.typ == "android_phone" { PhoneSettled(p, rid, t); }
    else { OtherSettled(p, rid, t); }
  }

  const ADDRESS_KEYS := {SERIAL, WIFI_IP, WIFI_PORT, AVD_NAME}

  /** The base of the block is the base of the target that is read from it. */
  lemma {:induction false} BaseAgain(b: Block, u: Target)
    requires u.values == b && ID in b && b[ID] == u.id && NAME in b && b[NAME] == u.name && DESCRIPTION in b
    requires b[DESCRIPTION] == u.description
    requires TYPE in b && b[TYPE] == u.typ && MODE in b && b[MODE] == u.mode && ENABLED in b
    requires b[ENABLED] == ShowBool(u.enabled)
    ensures Base(u) == b - ADDRESS_KEYS
  {
    hide ShowBool;
  }

  lemma {:induction false} BaseHas(t: Target)
    ensures var b := Base(t);
            && ID in b && b[ID] == t.id && NAME in b && b[NAME] == t.name && DESCRIPTION in b
            && b[DESCRIPTION] == t.description
            && TYPE in b && b[TYPE] == t.typ && MODE in b && b[MODE] == t.mode && ENABLED in b
            && b[ENABLED] == ShowBool(t.enabled)
            && (forall s :: s in ADDRESS_KEYS ==> s !in b)
    ensures forall s :: s in t.values && s !in ADDRESS_KEYS && s !in {ID, NAME, DESCRIPTION, TYPE, MODE, ENABLED} ==>
        s in Base(t) && Base(t)[s] == t.values[s]
  {
    hide ShowBool;
  }

  lemma {:induction false} WiFiAgain(p: Platform, rid: string, t: Target, u: Target)
    requires Settled(rid, t) && IsWiFi(t) && u.values == Rewrite(p, t)
    requires u.id == t.id && u.name == t.name && u.description == t.description && u.typ == t.typ && u.mode == t.mode
    requires u.enabled == t.enabled
    requires Address(u.serial, u.wifiIP, u.wifiPort) == AddressOf(Rewrite(p, t))
    ensures Rewrite(p, u) == Rewrite(p, t) && u.serial == WiFiSerial(t.wifiIP, FilledPort(t.wifiPort))
  {
    hide Base, Trim, WiFiSerial, ShowBool, Settled, AddressOf;
    WiFiSettled(p, rid, t);
    BaseHas(t);
    BaseAgain(Rewrite(p, t), u);
    assert Rewrite(p, t) - ADDRESS_KEYS == Base(t);
    AddressAgain(t, u);
  }

  lemma {:induction false} AddressAgain(t: Target, u: Target)
    requires u.wifiIP == Trim(t.wifiIP) && u.wifiPort == FilledPort(t.wifiPort)
    ensures forall b :: Addressed(b, u) == Addressed(b, t)
  {
    hide Trim, WiFiSerial;
    TrimTwice(t.wifiIP);
    TrimTwice(t.wifiPort);
    TrimTrims(DEFAULT_PORT);
    TrimmedSerial(t.wifiIP, FilledPort(t.wifiPort));
  }

  lemma {:induction false} RedroidAgain(p: Platform, rid: string, t: Target, u: Target)
    requires Settled(rid, t) && t.typ == "redroid" && u.values == Rewrite(p, t) && PlatformFits(p)
    requires u.id == t.id && u.name == t.name && u.description == t.description && u.typ == t.typ && u.mode == t.mode
    requires u.enabled == t.enabled
    requires Address(u.serial, u.wifiIP, u.wifiPort) == AddressOf(Rewrite(p, t))
    ensures Rewrite(p, u) == Rewrite(p, t) && u.serial == WiFiSerial(t.wifiIP, FilledPort(t.wifiPort))
  {
    hide Base, Trim, WiFiSerial, ShowBool, Settled, AddressOf, PathOf, SSHArgs, Addressed;
    var path := PathOf(p, t);
    RedroidSettled(p, rid, t);
    BaseHas(t);
    WithPathHas(t, path);
    BaseAgain(Rewrite(p, t), u);
    AddressAgain(t, u);
    PathAgain(p, t, u);
    WithPathStrips(Base(t), t, path);
    WithPathAgain(Base(t), t, path);
  }

  function WithPath(b: Block, path: string): Block { b[SSH_KNOWN_HOSTS := path][SSH_ARGS := SSHArgs(path)] }

  lemma {:induction false} WithPathHas(t: Target, path: string)
    ensures var b := WithPath(Addressed(Base(t), t), path);
            && ID in b && b[ID] == t.id && NAME in b && b[NAME] == t.name && DESCRIPTION in b
            && b[DESCRIPTION] == t.description
            && TYPE in b && b[TYPE] == t.typ && MODE in b && b[MODE] == t.mode && ENABLED in b
            && b[ENABLED] == ShowBool(t.enabled)
  {
    hide Base, Trim, WiFiSerial, ShowBool, SSHArgs, FilledPort;
    BaseHas(t);
  }

  lemma {:induction false} WithPathStrips(b: Block, t: Target, path: string)
    requires forall s :: s in ADDRESS_KEYS ==> s !in b
    ensures WithPath(Addressed(b, t), path) - ADDRESS_KEYS == WithPath(b, path)
  {
    hide Trim, WiFiSerial, SSHArgs, FilledPort;
  }

  lemma {:induction false} WithPathAgain(b: Block, t: Target, path: string)
    ensures WithPath(Addressed(WithPath(b, path), t), path) == WithPath(Addressed(b, t), path)
  {
    hide Trim, WiFiSerial, SSHArgs, FilledPort;
  }

  lemma {:induction false} PathAgain(p: Platform, t: Target, u: Target)
    requires t.typ == "redroid" && u.values == Rewrite(p, t) && PlatformFits(p)
    ensures PathOf(p, u) == PathOf(p, t)
  {
    hide Rewrite, EffectiveKnownHosts;
    TargetKept(p, t);
    EffectiveTrimmed(p, In(t.values, SSH_TARGET), In(t.values, SSH_KNOWN_HOSTS));
  }

  lemma {:induction false} TargetKept(p: Platform, t: Target)
    requires t.typ == "redroid"
    ensures In(Rewrite(p, t), SSH_TARGET) == In(t.values, SSH_TARGET)
    ensures In(Rewrite(p, t), SSH_KNOWN_HOSTS) == PathOf(p, t)
  {
    hide Trim, WiFiSerial, ShowBool, SSHArgs, EffectiveKnownHosts;
  }

  lemma {:induction false} PhoneAgain(p: Platform, rid: string, t: Target, u: Target)
    requires Settled(rid, t) && t.typ == "android_phone" && t.mode != "wifi" && u.values == Rewrite(p, t)
    requires u.id == t.id && u.name == t.name && u.description == t.description && u.typ == t.typ && u.mode == t.mode
    requires u.enabled == t.enabled
    requires Address(u.serial, u.wifiIP, u.wifiPort) == AddressOf(Rewrite(p, t))
    ensures Rewrite(p, u) == Rewrite(p, t) && u.serial == if t.mode == "usb" then t.serial else ""
  {
    hide Base, Trim, ShowBool, Settled, AddressOf;
    PhoneSettled(p, rid, t);
    BaseHas(t);
    BaseAgain(Rewrite(p, t), u);
    assert Rewrite(p, t) - ADDRESS_KEYS == Base(t);
  }

  lemma {:induction false} OtherAgain(p: Platform, rid: string, t: Target, u: Target)
    requires Settled(rid, t) && t.typ != "android_phone" && t.typ != "redroid" && u.values == Rewrite(p, t)
    requires u.id == t.id && u.name == t.name && u.description == t.description && u.typ == t.typ && u.mode == t.mode
    requires u.enabled == t.enabled
    ensures Rewrite(p, u) == Rewrite(p, t)
  {
    hide Base, Trim, ShowBool, Settled;
    BaseHas(t);
    BaseAgain(Rewrite(p, t), u);
    TrimTwice(In(t.values, BASE_NAME));
    var name := Trim(In(t.values, BASE_NAME));
    if t.typ == "android_emulator" && name != "" {
      assert Rewrite(p, t) - ADDRESS_KEYS == Base(t)[BASE_NAME := name];
    } else {
      assert Rewrite(p, t) - ADDRESS_KEYS == Base(t);
      BaseNameKept(p, t);
    }
  }

  lemma {:induction false} BaseNameKept(p: Platform, t: Target)
    requires t.typ != "android_phone" && t.typ != "redroid"
    requires (t.typ != "android_emulator" || Trim(In(t.values, BASE_NAME)) == "")
    ensures In(Rewrite(p, t), BASE_NAME) == In(t.values, BASE_NAME)
  {
    hide Trim, ShowBool;
  }

  // ---------------------------------------------------------------- reading what was saved

  /** The serial of a target belongs to its address. */
  ghost predicate Consistent(t: Target) {
    (IsWiFi(t) || t.typ == "redroid") ==> t.serial == WiFiSerial(t.wifiIP, FilledPort(t.wifiPort))
  }

  lemma {:induction false} ReadIsConsistent(rid: string, i: nat, b: Block)
    requires ReadTarget(rid, i, b).Some?
    ensures Consistent(ReadTarget(rid, i, b).value)
  {
    hide Trim, Settle, CanonicalID, ReadFlag, HasSpace, WiFiSerial;
    TrimTwice(In(b, WIFI_IP));
    TrimTwice(In(b, WIFI_PORT));
    TrimTrims(DEFAULT_PORT);
  }

  /** Alike for every check across targets; a serial may only be lost. */
  ghost predicate Alike(u: Target, t: Target) {
    && u.id == t.id && u.name == t.name && u.typ == t.typ
    && In(u.values, PORT) == In(t.values, PORT) && In(u.values, CONTAINER_NAME) == In(t.values, CONTAINER_NAME)
    && In(u.values, WORK_DIR) == In(t.values, WORK_DIR)
    && (HasSerial(u) ==> u.serial == t.serial)
  }

  lemma {:induction false} AlikeDoNotClash(u: Target, t: Target, x: Target, y: Target)
    requires Alike(u, t) && Alike(x, y) && !Clash(t, y)
    ensures !Clash(u, x)
  {
    hide Trim;
  }

  lemma {:induction false} PlacesKept(p: Platform, t: Target)
    ensures var b := Rewrite(p, t);
            && In(b, PORT) == In(t.values, PORT) && In(b, CONTAINER_NAME) == In(t.values, CONTAINER_NAME)
            && In(b, WORK_DIR) == In(t.values, WORK_DIR)
  {
    hide Trim, WiFiSerial, SSHArgs, ShowBool, PathOf, FilledPort;
  }

  /** The target that is read from a saved block is saved in the same way. */
  lemma {:induction false} SavedAgain(p: Platform, rid: string, i: nat, t: Target)
    requires Settled(rid, t) && Consistent(t) && PlatformFits(p) && Passes(p, t)
    ensures var r := ReadTarget(rid, i, Rewrite(p, t));
            r.Some? && Rewrite(p, r.value) == Rewrite(p, t) && Alike(r.value, t)
  {
    hide Rewrite, Settled, ReadTarget, AddressOf, WiFiSerial, Trim, Passes, FilledPort;
    Rereads(p, rid, i, t);
    PlacesKept(p, t);
    var u := ReadTarget(rid, i, Rewrite(p, t)).value;
    if IsWiFi(t) { WiFiAgain(p, rid, t, u); }
    else if t.typ == "redroid" { RedroidAgain(p, rid, t, u); }
    else if t.typ == "android_phone" { PhoneAgain(p, rid, t, u); }
    else { OtherAgain(p, rid, t, u); }
  }

  // ---------------------------------------------------------------- the saved map

  lemma {:induction false} PrefixedKeys(i: nat, b: Block)
    ensures forall k :: k in Prefixed(i, b) <==> k.Dev? && k.index == i && k.suffix in b
    ensures forall k :: k in Prefixed(i, b) ==> Prefixed(i, b)[k] == b[k.suffix]
  {
    forall k: Key | k.Dev? && k.index == i && k.suffix in b
      ensures k in Prefixed(i, b) { assert k == Dev(i, k.suffix); }
  }

  lemma {:induction false} PutTargetsKeys(p: Platform, v: Values, ts: seq<Target>, k: Key)
    requires forall x: Key :: x in v ==> !x.Dev?
    ensures !k.Dev? ==> (k in PutTargets(p, v, ts) <==> k in v) && (k in v ==> PutTargets(p, v, ts)[k] == v[k])
    ensures k.Dev? ==> (k in PutTargets(p, v, ts) <==> 1 <= k.index <= |ts| && k.suffix in Rewrite(p, ts[k.index - 1]))
    ensures k.Dev? && k in PutTargets(p, v, ts) ==> PutTargets(p, v, ts)[k] == Rewrite(p, ts[k.index - 1])[k.suffix]
  {
    hide Rewrite, Prefixed;
    if ts != [] {
      PutTargetsKeys(p, v, ts[..|ts| - 1], k);
      PrefixedKeys(|ts|, Rewrite(p, ts[|ts| - 1]));
    }
  }

  lemma {:induction false} SavedBlock(p: Platform, v: Values, ts: seq<Target>, i: nat)
    requires (forall x: Key :: x in v ==> !x.Dev?) && 1 <= i <= |ts| && AllTrimmed(Rewrite(p, ts[i - 1]))
    ensures BlockOf(PutTargets(p, v, ts), i) == Rewrite(p, ts[i - 1])
  {
    hide Rewrite, Trim, PutTargets;
    var w, b := PutTargets(p, v, ts), Rewrite(p, ts[i - 1]);
    forall s ensures s in BlockOf(w, i) <==> s in b {
      PutTargetsKeys(p, v, ts, Dev(i, s));
      BlockHas(w, i, s);
    }
    forall s | s in b ensures BlockOf(w, i)[s] == b[s] {
      PutTargetsKeys(p, v, ts, Dev(i, s));
      BlockHas(w, i, s);
      TrimTrims(b[s]);
    }
  }

  lemma {:induction false} BlockHas(v: Values, i: nat, s: Suffix)
    ensures s in BlockOf(v, i) <==> Dev(i, s) in v
    ensures Dev(i, s) in v ==> s in BlockOf(v, i) && BlockOf(v, i)[s] == Trim(v[Dev(i, s)])
  {
    hide Trim;
    if Dev(i, s) in v { var k := Dev(i, s); assert k in v && k.Dev? && k.index == i; }
  }

  lemma {:induction false} ReadsSaved(p: Platform, rid: string, v: Values, ts: seq<Target>, n: nat)
    requires (forall x: Key :: x in v ==> !x.Dev?) && n <= |ts| && PlatformFits(p)
    requires forall i :: 0 <= i < |ts| ==> Settled(rid, ts[i]) && Consistent(ts[i])
    ensures var r := ReadTargets(rid, PutTargets(p, v, ts), n);
            && (r.Some? <==> forall i :: 0 <= i < n ==> Passes(p, ts[i]))
            && (r.Some? ==> |r.value| == n)
            && (r.Some? ==> forall i :: 0 <= i < n ==>
                  Rewrite(p, r.value[i]) == Rewrite(p, ts[i]) && Alike(r.value[i], ts[i]))
  {
    hide Rewrite, PutTargets, Settled, Consistent, Passes, ReadTarget, Alike, BlockOf;
    if n > 0 {
      ReadsSaved(p, rid, v, ts, n - 1);
      RewriteTrimmed(p, rid, ts[n - 1]);
      SavedBlock(p, v, ts, n);
      Rereads(p, rid, n, ts[n - 1]);
      if Passes(p, ts[n - 1]) { SavedAgain(p, rid, n, ts[n - 1]); }
    }
  }

  lemma {:induction false} PutSameTargets(p: Platform, v: Values, ts: seq<Target>, us: seq<Target>)
    requires |us| == |ts| && forall i :: 0 <= i < |ts| ==> Rewrite(p, us[i]) == Rewrite(p, ts[i])
    ensures PutTargets(p, v, us) == PutTargets(p, v, ts)
  {
    hide Rewrite, Prefixed;
    if ts != [] { PutSameTargets(p, v, ts[..|ts| - 1], us[..|us| - 1]); }
  }

  // ---------------------------------------------------------------- the fixpoint

  lemma {:induction false} LoadedTargets(v: Values, rid: string, n: nat)
    requires ReadTargets(rid, v, n).Some? && rid != "" && CanonicalID(rid) == rid
    requires forall k :: k in v && k.Dev? ==> !k.suffix.Unlisted?
    ensures var ts := ReadTargets(rid, v, n).value;
            |ts| == n && forall i :: 0 <= i < n ==> Settled(rid, ts[i]) && Consistent(ts[i])
  {
    hide ReadTarget, BlockOf, Settled, Consistent, CanonicalID;
    if n > 0 {
      LoadedTargets(v, rid, n - 1);
      BlocksAreTrimmed(v, n);
      BlockListed(v, n);
      ReadIsSettled(rid, n, BlockOf(v, n));
      ReadIsConsistent(rid, n, BlockOf(v, n));
    }
  }

  lemma {:induction false} BlockListed(v: Values, i: nat)
    requires forall k :: k in v && k.Dev? ==> !k.suffix.Unlisted?
    ensures AllListed(BlockOf(v, i))
  {
    forall s | s in BlockOf(v, i) ensures !s.Unlisted? { BlockHas(v, i, s); }
  }

  lemma {:induction false} FillTwice(host: Values, defaults: Values, w: Values)
    requires forall k: Key :: k.Host? ==>
        (k in w <==> k in FillDefaults(host, defaults)) && (k in w ==> w[k] == FillDefaults(host, defaults)[k])
    ensures FillDefaults(w, defaults) == FillDefaults(host, defaults)
  {
    hide Trim;
    var f := FillDefaults(host, defaults);
    forall k: Key | k.Host? ensures k in FillDefaults(w, defaults) <==> k in f { }
    forall k | k in f ensures FillDefaults(w, defaults)[k] == f[k] { }
  }

  lemma {:induction false} IDNotBlank(s: string)
    requires CanonicalID(s) != ""
    ensures Trim(CanonicalID(s)) != ""
  {
    hide Trim;
    TrimTrims(s);
    var id := CanonicalID(s);
    assert !Space(id[|id| - 1]);
    if Trim(id) == "" { LastSpace(id); }
  }

  lemma {:induction false} LastSpace(s: string)
    requires s != "" && !Space(s[|s| - 1])
    ensures Trim(s) != ""
  {
    if Space(s[0]) { LastSpace(s[1..]); }
  }

  /** The runner ID as it is saved is the one that was loaded. */
  lemma {:induction false} RunnerSaved(p: Platform, defaults: Values, v: Values, ts: seq<Target>)
    requires CanonicalID(Get(v, RUNNER_ID_KEY)) != ""
    ensures Get(Resave(p, defaults, HostOf(v), ts), RUNNER_ID_KEY) == CanonicalID(Get(v, RUNNER_ID_KEY))
  {
    hide CanonicalID, Trim, PutTargets, ShowNat;
    IDNotBlank(Get(v, RUNNER_ID_KEY));
    var f := FillDefaults(HostOf(v), defaults)[Count := ShowNat(|ts|)];
    PutTargetsKeys(p, f, ts, RUNNER_ID_KEY);
  }

  lemma {:induction false} SavedKeysAllowed(p: Platform, rid: string, f: Values, ts: seq<Target>, k: Key)
    requires (forall x: Key :: x in f ==> x.Host? || x.Count?) && k in PutTargets(p, f, ts) && PlatformFits(p)
    requires forall i :: 0 <= i < |ts| ==> Settled(rid, ts[i])
    ensures KeyAllowed(k, |ts|)
  {
    hide PutTargets, Rewrite, Settled;
    PutTargetsKeys(p, f, ts, k);
    if k.Dev? { RewriteListed(p, rid, ts[k.index - 1]); }
  }

  lemma {:induction false} RewriteListed(p: Platform, rid: string, t: Target)
    requires Settled(rid, t)
    ensures AllListed(Rewrite(p, t))
  {
    hide Trim, WiFiSerial, SSHArgs, ShowBool, PathOf, FilledPort, HasSpace, AllTrimmed;
  }

  /** Loading what was saved. */
  lemma {:induction false} LoadsSaved(p: Platform, defaults: Values, v: Values, rid: string, ts: Targets)
    requires PlatformFits(p) && rid != "" && CanonicalID(rid) == rid && CanonicalID(Get(v, RUNNER_ID_KEY)) == rid
    requires ts != [] && Compatible(ts)
    requires forall i :: 0 <= i < |ts| ==> Settled(rid, ts[i]) && Consistent(ts[i])
    ensures var r := ReadInventory(Resave(p, defaults, HostOf(v), ts));
            && (r.Some? <==> forall i :: 0 <= i < |ts| ==> Passes(p, ts[i]))
            && (r.Some? ==> r.value.runnerID == rid && |r.value.targets| == |ts|
                            && forall i :: 0 <= i < |ts| ==> Rewrite(p, r.value.targets[i]) == Rewrite(p, ts[i]))
  {
    hide CanonicalID, Trim, PutTargets, ShowNat, ReadInt, Settled, Consistent, Passes, Rewrite, Alike, KeyAllowed;
    hide ReadTargets, Clash, HostOf, FillDefaults;
    var f := FillDefaults(HostOf(v), defaults)[Count := ShowNat(|ts|)];
    var w := Resave(p, defaults, HostOf(v), ts);
    assert forall k: Key :: k in f ==> k.Host? || k.Count? by { FillHosts(HostOf(v), defaults); }
    RunnerSaved(p, defaults, v, ts);
    PutTargetsKeys(p, f, ts, Count);
    NumberRoundTrip(|ts|);
    forall k | k in w ensures KeyAllowed(k, |ts|) { SavedKeysAllowed(p, rid, f, ts, k); }
    ReadsSaved(p, rid, f, ts, |ts|);
    var r := ReadTargets(rid, w, |ts|);
    if r.Some? {
      forall i, j | 0 <= i < j < |ts|
        ensures !Clash(r.value[i], r.value[j]) { AlikeDoNotClash(r.value[i], ts[i], r.value[j], ts[j]); }
    }
  }

  lemma {:induction false} FillHosts(host: Values, defaults: Values)
    ensures forall k :: k in FillDefaults(host, defaults) ==> k.Host?
  {
    hide Trim;
  }

  /** Saving again gives the same map. */
  lemma {:induction false} SavesSame(p: Platform, defaults: Values, v: Values, ts: seq<Target>, us: seq<Target>)
    requires CanonicalID(Get(v, RUNNER_ID_KEY)) != ""
    requires CanonicalID(CanonicalID(Get(v, RUNNER_ID_KEY))) == CanonicalID(Get(v, RUNNER_ID_KEY))
    requires |us| == |ts| && forall i :: 0 <= i < |ts| ==> Rewrite(p, us[i]) == Rewrite(p, ts[i])
    ensures var w := Resave(p, defaults, HostOf(v), ts); Resave(p, defaults, HostOf(w), us) == w
  {
    hide CanonicalID, Trim, PutTargets, ShowNat, Rewrite, FillDefaults;
    var f := FillDefaults(HostOf(v), defaults);
    var w := Resave(p, defaults, HostOf(v), ts);
    RunnerSaved(p, defaults, v, ts);
    FillHosts(HostOf(v), defaults);
    var g := f[Count := ShowNat(|ts|)];
    forall k: Key | k.Host? ensures (k in HostOf(w) <==> k in f) && (k in f ==> HostOf(w)[k] == f[k]) {
      PutTargetsKeys(p, g, ts, k);
      if k == RUNNER_ID_KEY { RunnerInFilled(defaults, v); }
    }
    FillTwice(HostOf(v), defaults, HostOf(w));
    PutSameTargets(p, g, ts, us);
  }

  lemma {:induction false} RunnerInFilled(defaults: Values, v: Values)
    requires CanonicalID(Get(v, RUNNER_ID_KEY)) != ""
    ensures var f := FillDefaults(HostOf(v), defaults);
            RUNNER_ID_KEY in f && f[RUNNER_ID_KEY] == CanonicalID(Get(v, RUNNER_ID_KEY))
  {
    hide CanonicalID, Trim;
    IDNotBlank(Get(v, RUNNER_ID_KEY));
  }

  /** For every inventory that loads: saving what was loaded and doing so again leaves
      the settings as they are, exactly if the runner ID is canonical after one pass
      and no known-hosts path in force contains a space. */
  lemma {:induction false} SavingTwiceIsSavingOnce(p: Platform, defaults: Values, v: Values)
    requires PlatformFits(p) && ReadInventory(v).Some?
    ensures var inv := ReadInventory(v).value; var w := SaveLoaded(p, defaults, v).value;
            SaveLoaded(p, defaults, w) == Some(w) <==>
              CanonicalID(inv.runnerID) == inv.runnerID
              && forall i :: 0 <= i < |inv.targets| ==> Passes(p, inv.targets[i])
  {
    hide CanonicalID, Trim, Resave, ReadInventory, Settled, Consistent, Passes, Rewrite, KeyAllowed, HostOf, Compatible;
    hide ReadTargets;
    var inv := ReadInventory(v).value;
    var rid, ts := inv.runnerID, inv.targets;
    var w := Resave(p, defaults, HostOf(v), ts);
    CountIs(v);
    assert rid != "" && rid == CanonicalID(Get(v, RUNNER_ID_KEY)) by { RunnerIs(v); }
    RunnerSaved(p, defaults, v, ts);
    if CanonicalID(rid) == rid {
      assert forall k :: k in v && k.Dev? ==> !k.suffix.Unlisted? by { AllKeysListed(v); }
      LoadedTargets(v, rid, |ts|);
      LoadsSaved(p, defaults, v, rid, ts);
      if ReadInventory(w).Some? { SavesSame(p, defaults, v, ts, ReadInventory(w).value.targets); }
    } else if ReadInventory(w).Some? {
      RunnerIs(w);
      RunnerSaved(p, defaults, w, ReadInventory(w).value.targets);
    }
  }

  lemma {:induction false} RunnerIs(v: Values)
    requires ReadInventory(v).Some?
    ensures ReadInventory(v).value.runnerID == CanonicalID(Get(v, RUNNER_ID_KEY)) != ""
  {
    hide CanonicalID, Trim, ReadTargets, KeyAllowed, Compatible;
  }

  lemma {:induction false} AllKeysListed(v: Values)
    requires ReadInventory(v).Some?
    ensures forall k :: k in v && k.Dev? ==> !k.suffix.Unlisted?
  {
    hide CanonicalID, Trim, ReadTargets, Compatible;
  }

  /** A runner ID with two slashes in front loads, but is not canonical after one pass. */
  lemma {:induction false} TwoSlashes() returns (v: Values)
    ensures ReadInventory(v).Some? && CanonicalID(ReadInventory(v).value.runnerID) != ReadInventory(v).value.runnerID
  {
    v := map[RUNNER_ID_KEY := "//org/r", Count := "1", Dev(1, ID) := "//org/r/d"];
    TrimTrims("//org/r");
    TrimTrims("/org/r");
    TrimTrims("//org/r/d");
    TrimTrims("1");
    assert Trim("") == "" by { TrimTrims(""); }
    assert ReadInt("1") == Some(1);
    BlockHas(v, 1, ID);
    BlockHas(v, 1, ENABLED);
    BlockHas(v, 1, SSH_KNOWN_HOSTS);
    OneTarget(v);
  }

  lemma {:induction false} OneTarget(v: Values)
    requires v == map[RUNNER_ID_KEY := "//org/r", Count := "1", Dev(1, ID) := "//org/r/d"]
    requires var b := BlockOf(v, 1);
             b != map[] && In(b, ID) == "//org/r/d" && In(b, ENABLED) == "" && In(b, SSH_KNOWN_HOSTS) == ""
    requires Trim("") == "" && Trim("//org/r") == "//org/r" && Trim("//org/r/d") == "//org/r/d" && Trim("1") == "1"
    requires ReadInt("1") == Some(1)
    ensures ReadInventory(v).Some? && ReadInventory(v).value.runnerID == "/org/r"
  {
    hide BlockOf, Trim, ReadInt, Settle, AddressOf;
    assert "/org/r" + "/" <= "/org/r/d";
    assert ReadTargets("/org/r", v, 0) == Some([]);
  }
}
