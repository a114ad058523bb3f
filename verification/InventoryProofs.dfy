/** What an accepted inventory is like, and that saving what was loaded changes
    nothing more after the first time. */
module InventoryProofs {
  import opened Wrappers
  import opened Text
  import opened Numbers
  import opened ConfigSpec
  import opened ConfigRules

  // ---------------------------------------------------------------- accepted inventories

  /** Two targets that the limits of a runner do not allow together. */
  predicate OverLimit(a: Target, b: Target) {
    || (Trim(a.typ) == Trim(b.typ) && (Trim(a.typ) == "android_emulator" || Trim(a.typ) == "ios_simulator"))
    || (Trim(a.typ) in {"android_phone", "redroid"} && Trim(b.typ) in {"android_phone", "redroid"}
        && Trim(a.serial) != "" && Trim(a.serial) == Trim(b.serial))
  }

  predicate WithinLimits(ts: seq<Target>) { forall i, j :: 0 <= i < j < |ts| ==> !OverLimit(ts[i], ts[j]) }

  ghost predicate AllTrimmed(b: Block) { forall s :: s in b ==> Trimmed(b[s]) }

  lemma {:induction false} BlocksAreTrimmed(v: Values, i: nat)
    ensures AllTrimmed(BlockOf(v, i))
  {
    forall s | s in BlockOf(v, i) ensures Trimmed(BlockOf(v, i)[s]) {
      var k :| k in v && k.Dev? && k.index == i && k.suffix == s;
      TrimTrims(v[k]);
    }
  }

  lemma JoinTrimmed(host: string, port: string)
    requires Trimmed(host) && host != "" && Trimmed(port) && port != ""
    ensures Trimmed(Join(host, port))
  {
  }

  lemma {:induction false} SerialTrimmed(ip: string, port: string)
    ensures Trimmed(WiFiSerial(ip, port))
  {
    hide Trim, Join;
    TrimTrims(ip);
    TrimTrims(port);
    if Trim(ip) != "" { JoinTrimmed(Trim(ip), if Trim(port) == "" then DEFAULT_PORT else Trim(port)); }
  }

  /** One target that was read. */
  ghost predicate FromBlock(rid: string, t: Target, i: nat) {
    t.index == i && rid + "/" <= t.id && Trimmed(t.typ) && Trimmed(t.serial)
  }

  lemma {:induction false} ReadTargetIs(rid: string, i: nat, b: Block)
    requires AllTrimmed(b) && ReadTarget(rid, i, b).Some?
    ensures FromBlock(rid, ReadTarget(rid, i, b).value, i)
  {
    hide Trim, Settle, WiFiSerial, HasSpace, ReadFlag, CanonicalID;
    forall s ensures Trimmed(Trim(s)) { TrimTrims(s); }
    SerialTrimmed(Trim(In(b, WIFI_IP)), if Trim(In(b, WIFI_PORT)) == "" then DEFAULT_PORT else Trim(In(b, WIFI_PORT)));
  }

  lemma {:induction false} ReadTargetsAre(rid: string, v: Values, n: nat)
    requires ReadTargets(rid, v, n).Some?
    ensures var ts := ReadTargets(rid, v, n).value;
            |ts| == n && forall i :: 0 <= i < n ==>
                FromBlock(rid, ts[i], i + 1) && ReadTarget(rid, i + 1, BlockOf(v, i + 1)) == Some(ts[i])
  {
    hide ReadTarget, BlockOf, FromBlock;
    if n > 0 {
      ReadTargetsAre(rid, v, n - 1);
      BlocksAreTrimmed(v, n);
      ReadTargetIs(rid, n, BlockOf(v, n));
    }
  }

  /** Accepted devices are numbered from 1, lie under the runner, have distinct IDs and
      serials, and contain at most one emulator and one simulator: the limits that are
      checked before saving hold. */
  lemma {:induction false} AcceptedInventory(v: Values)
    requires ReadInventory(v).Some?
    ensures var inv := ReadInventory(v).value;
            && inv.targets != [] && WithinLimits(inv.targets)
            && (forall i :: 0 <= i < |inv.targets| ==>
                 inv.targets[i].index == i + 1 && inv.runnerID + "/" <= inv.targets[i].id)
            && (forall i, j :: 0 <= i < j < |inv.targets| ==> inv.targets[i].id != inv.targets[j].id)
  {
    hide ReadTargets, ReadTarget, BlockOf, KeyAllowed, Trim, ReadInt, CanonicalID, Clash, OverLimit;
    var inv := ReadInventory(v).value;
    ReadTargetsAre(inv.runnerID, v, |inv.targets|) by { CountIs(v); }
    CountIs(v);
    forall i, j | 0 <= i < j < |inv.targets|
      ensures !OverLimit(inv.targets[i], inv.targets[j]) && inv.targets[i].id != inv.targets[j].id
    {
      assert !Clash(inv.targets[i], inv.targets[j]);
      NoClashWithinLimits(inv.targets[i], inv.targets[j]);
    }
  }

  lemma {:induction false} CountIs(v: Values)
    requires ReadInventory(v).Some?
    ensures var inv := ReadInventory(v).value;
            |inv.targets| > 0 && ReadInt(Trim(Get(v, Count))) == Some(|inv.targets|)
            && ReadTargets(inv.runnerID, v, |inv.targets|) == Some(inv.targets) && Compatible(inv.targets)
  {
    hide ReadTargets, KeyAllowed, Trim, ReadInt, CanonicalID, Compatible;
    var inv := ReadInventory(v).value;
    var n: nat := ReadInt(Trim(Get(v, Count))).value;
    ReadTargetsAre(inv.runnerID, v, n);
  }

  lemma {:induction false} NoClashWithinLimits(a: Target, b: Target)
    requires !Clash(a, b) && Trimmed(a.typ) && Trimmed(b.typ) && Trimmed(a.serial) && Trimmed(b.serial)
    ensures !OverLimit(a, b) && a.id != b.id
  {
    hide Trim;
    TrimTrims(a.typ);
    TrimTrims(b.typ);
    TrimTrims(a.serial);
    TrimTrims(b.serial);
  }

  // ---------------------------------------------------------------- saving what was loaded

  predicate IsWiFi(t: Target) { t.typ == "android_phone" && t.mode == "wifi" }

  function FilledPort(port: string): string { if Trim(port) == "" then DEFAULT_PORT else Trim(port) }

  function Base(t: Target): Block {
    t.values[ID := t.id][NAME := t.name][DESCRIPTION := t.description][TYPE := t.typ]
        [MODE := t.mode][ENABLED := ShowBool(t.enabled)]
    - {SERIAL, WIFI_IP, WIFI_PORT, AVD_NAME}
  }

  function Addressed(b: Block, t: Target): Block {
    b[WIFI_IP := Trim(t.wifiIP)][WIFI_PORT := FilledPort(t.wifiPort)]
     [SERIAL := WiFiSerial(t.wifiIP, FilledPort(t.wifiPort))]
  }

  function PathOf(p: Platform, t: Target): string {
    EffectiveKnownHosts(p, In(t.values, SSH_TARGET), In(t.values, SSH_KNOWN_HOSTS))
  }

  /** The block that is saved for a target. */
  function Rewrite(p: Platform, t: Target): Block {
    var b := Base(t);
    if IsWiFi(t) then Addressed(b, t)
    else if t.typ == "redroid" then Addressed(b, t)[SSH_KNOWN_HOSTS := PathOf(p, t)][SSH_ARGS := SSHArgs(PathOf(p, t))]
    else if t.typ == "android_phone" && t.mode == "usb"
           then (if Trim(t.serial) != "" then b[SERIAL := Trim(t.serial)] else b)
    else if t.typ == "android_emulator" && Trim(In(t.values, BASE_NAME)) != "" then
      b[BASE_NAME := Trim(In(t.values, BASE_NAME))][AVD_NAME := Trim(In(t.values, BASE_NAME))]
    else b
  }

  ghost predicate PlatformFits(p: Platform) { Trimmed(p.knownHosts) }

  /** A target as reading leaves it. */
  ghost predicate Settled(rid: string, t: Target) {
    && rid != "" && rid + "/" <= t.id && CanonicalID(t.id) == t.id && Trim(t.id) != ""
    && AllTrimmed(t.values) && Trimmed(t.name) && Trimmed(t.description) && Trimmed(t.typ) && Trimmed(t.mode)
    && Trimmed(t.serial) && Trimmed(t.wifiIP) && Trimmed(t.wifiPort)
    && !HasSpace(In(t.values, SSH_KNOWN_HOSTS)) && AllListed(t.values)
  }

  ghost predicate AllListed(b: Block) { forall s :: s in b ==> !s.Unlisted? }

  ghost predicate Passes(p: Platform, t: Target) { t.typ == "redroid" ==> !HasSpace(PathOf(p, t)) }

  lemma {:induction false} BaseTrimmed(rid: string, t: Target)
    requires Settled(rid, t)
    ensures AllTrimmed(Base(t))
  {
    hide Trim, HasSpace, ShowBool;
    BoolRoundTrip(t.enabled);
    TrimTrims(ShowBool(t.enabled));
    IDTrimmed(t.id);
  }

  lemma {:induction false} IDTrimmed(id: string)
    requires CanonicalID(id) == id
    ensures Trimmed(id)
  {
    hide Trim;
    TrimTrims(id);
    assert |Trim(id)| <= |id| by { TrimShortens(id); }
  }

  lemma {:induction false} TrimShortens(s: string)
    ensures |Trim(s)| <= |s| && (|Trim(s)| == |s| ==> Trim(s) == s)
  {
    TrimLeftShortens(s);
    TrimRightEnds(TrimLeft(s));
  }

  lemma {:induction false} TrimLeftShortens(s: string)
    ensures |TrimLeft(s)| <= |s| && (|TrimLeft(s)| == |s| ==> TrimLeft(s) == s)
  {
    if s != "" && Space(s[0]) { TrimLeftShortens(s[1..]); }
  }

  lemma {:induction false} ArgsTrimmed(path: string)
    ensures Trimmed(SSHArgs(path))
  {
    hide Trim;
    TrimTrims(path);
  }

  lemma {:induction false} EffectiveTrimmed(p: Platform, target: string, path: string)
    requires PlatformFits(p)
    ensures var e := EffectiveKnownHosts(p, target, path); Trimmed(e) && EffectiveKnownHosts(p, target, e) == e
  {
    hide Trim;
    TrimTrims(path);
    TrimTrims(Trim(path));
    TrimTrims(p.knownHosts);
  }

  lemma {:induction false} RewriteTrimmed(p: Platform, rid: string, t: Target)
    requires Settled(rid, t) && PlatformFits(p)
    ensures AllTrimmed(Rewrite(p, t))
  {
    hide Trim, HasSpace, Base, Settled, SSHArgs, WiFiSerial;
    BaseTrimmed(rid, t);
    TrimTrims(t.wifiIP);
    TrimTrims(t.wifiPort);
    TrimTrims(t.serial);
    TrimTrims(In(t.values, BASE_NAME));
    SerialTrimmed(t.wifiIP, FilledPort(t.wifiPort));
    EffectiveTrimmed(p, In(t.values, SSH_TARGET), In(t.values, SSH_KNOWN_HOSTS));
    ArgsTrimmed(PathOf(p, t));
  }

  lemma {:induction false} BaseKeeps(t: Target)
    ensures var b := Base(t);
            && ID in b && b[ID] == t.id && In(b, NAME) == t.name && In(b, DESCRIPTION) == t.description
            && In(b, TYPE) == t.typ
            && In(b, MODE) == t.mode && In(b, ENABLED) == ShowBool(t.enabled)
            && In(b, SSH_KNOWN_HOSTS) == In(t.values, SSH_KNOWN_HOSTS)
  {
    hide ShowBool;
  }

  /** What of the block does not depend on the type. */
  lemma {:induction false} RewriteKeeps(p: Platform, t: Target)
    ensures var b := Rewrite(p, t);
            && ID in b && b[ID] == t.id && In(b, NAME) == t.name && In(b, DESCRIPTION) == t.description
            && In(b, TYPE) == t.typ
            && In(b, MODE) == t.mode && In(b, ENABLED) == ShowBool(t.enabled)
            && (t.typ != "redroid" ==> In(b, SSH_KNOWN_HOSTS) == In(t.values, SSH_KNOWN_HOSTS))
            && (t.typ == "redroid" ==> In(b, SSH_KNOWN_HOSTS) == PathOf(p, t))
  {
    hide Trim, WiFiSerial, SSHArgs, ShowBool, PathOf, FilledPort, Base;
    BaseKeeps(t);
    assert ID in Rewrite(p, t);
  }

  /** The block as it is read again: nothing is left to settle. */
  lemma {:induction false} WiFiSettled(p: Platform, rid: string, t: Target)
    requires Settled(rid, t) && IsWiFi(t)
    ensures Settle(Rewrite(p, t), t.id) == Rewrite(p, t)
    ensures AddressOf(Rewrite(p, t))
            == Address(WiFiSerial(t.wifiIP, FilledPort(t.wifiPort)), Trim(t.wifiIP), FilledPort(t.wifiPort))
  {
    hide Trim, WiFiSerial, SSHArgs, ShowBool, PathOf, Settled, Base;
    RewriteKeeps(p, t);
    assert Trim("") == "" by { TrimTrims(""); }
    TrimTrims(DEFAULT_PORT);
    TrimTwice(t.wifiIP);
    TrimTwice(t.wifiPort);
    TrimmedSerial(t.wifiIP, FilledPort(t.wifiPort));
  }

  lemma {:induction false} RedroidSettled(p: Platform, rid: string, t: Target)
    requires Settled(rid, t) && t.typ == "redroid"
    ensures Settle(Rewrite(p, t), t.id) == Rewrite(p, t)
    ensures AddressOf(Rewrite(p, t))
            == Address(WiFiSerial(t.wifiIP, FilledPort(t.wifiPort)), Trim(t.wifiIP), FilledPort(t.wifiPort))
  {
    hide Trim, WiFiSerial, SSHArgs, ShowBool, PathOf, Settled, Base;
    RewriteKeeps(p, t);
    assert Trim("") == "" by { TrimTrims(""); }
    TrimTrims(DEFAULT_PORT);
    TrimTwice(t.wifiIP);
    TrimTwice(t.wifiPort);
    TrimmedSerial(t.wifiIP, FilledPort(t.wifiPort));
  }

  lemma {:induction false} PhoneSettled(p: Platform, rid: string, t: Target)
    requires Settled(rid, t) && t.typ == "android_phone" && t.mode != "wifi"
    ensures Settle(Rewrite(p, t), t.id) == Rewrite(p, t)
    ensures AddressOf(Rewrite(p, t)).serial == if t.mode == "usb" then t.serial else ""
  {
    hide Trim, WiFiSerial, SSHArgs, ShowBool, PathOf, Settled;
    RewriteKeeps(p, t);
    assert Trim("") == "" by { TrimTrims(""); }
    assert Trimmed(t.serial) by { SerialOfSettled(rid, t); }
    TrimTrims(t.serial);
  }

  lemma {:induction false} OtherSettled(p: Platform, rid: string, t: Target)
    requires Settled(rid, t) && t.typ != "android_phone" && t.typ != "redroid"
    ensures Settle(Rewrite(p, t), t.id) == Rewrite(p, t)
  {
    hide Trim, WiFiSerial, SSHArgs, ShowBool, PathOf, Settled;
    RewriteKeeps(p, t);
    assert Trim("") == "" by { TrimTrims(""); }
    TrimTwice(In(t.values, BASE_NAME));
  }

  lemma SerialOfSettled(rid: string, t: Target)
    requires Settled(rid, t)
    ensures Trimmed(t.serial)
  {
  }
}
