/** The round trip: exactly when a configuration that is accepted survives being
    printed into settings and read back. */
module ConfigProofs {
  import opened Wrappers
  import opened Text
  import opened Numbers
  import opened ConfigSpec
  import opened ConfigBlocks
  import opened ConfigRules

  // ---------------------------------------------------------------- one device

  /** What becomes of a device: its texts are trimmed and its defaults filled in. */
  function NormalKind(p: Platform, k: Kind): Kind {
    match k
    case Physical(transport, serial, ip, port) =>
      if transport == "usb" then Physical("usb", Trim(serial), "", "")
      else if transport == "wifi" then Physical("wifi", "", Trim(ip), PortOrDefault(port))
      else Physical(transport, "", "", "")
    case AVD(e) =>
      AVD(e.(abi := Trim(e.abi), systemImage := Trim(e.systemImage), baseName := Trim(e.baseName),
             goldenSource := Trim(e.goldenSource)))
    case RedroidOf(r) => RedroidOf(NormalRedroid(p, r))
    case Simulator(udid) => Simulator(Trim(udid))
  }

  function NormalRedroid(p: Platform, r: Redroid): Redroid {
    Redroid(Trim(r.host), Trim(r.image), Trim(r.dataDir), Trim(r.dataArchive), r.port, Trim(r.sshTarget),
            Trim(r.sshPassword),
            EffectiveKnownHosts(p, r.sshTarget, r.knownHosts), r.sudo, Trim(r.sudoPassword))
  }

  function NormalDevice(p: Platform, d: Device): Device {
    Device(d.id, Trim(d.name), Trim(d.description), d.enabled, NormalKind(p, d.kind))
  }

  /** The known-hosts file of a device can be passed on. */
  predicate Passable(p: Platform, d: Device) {
    d.kind.RedroidOf? ==> !HasSpace(EffectiveKnownHosts(p, d.kind.redroid.sshTarget, d.kind.redroid.knownHosts))
  }

  function SerialOf(k: Kind): string {
    match k
    case Physical(transport, serial, ip, port) =>
      if transport == "usb" then Trim(serial) else if transport == "wifi" then WiFiSerial(ip, PortOrDefault(port))
      else ""
    case RedroidOf(r) => WiFiSerial(r.host, ShowInt(r.port))
    case _ => ""
  }

  /** What of a target does not depend on its kind. */
  ghost predicate Plain(t: Target, i: nat, d: Device) {
    && t.index == i && t.id == d.id && t.name == Trim(d.name) && t.description == Trim(d.description)
    && t.enabled == d.enabled
    && t.typ == TypeName(d.kind)
    && In(t.values, PORT) == "" && In(t.values, CONTAINER_NAME) == "" && In(t.values, WORK_DIR) == ""
  }

  ghost predicate GoodPlatform(p: Platform) { Faithful(p) && Trimmed(p.knownHosts) }

  lemma {:induction false} TypeNameTrimmed(k: Kind)
    ensures Trim(TypeName(k)) == TypeName(k)
  {
    TrimTrims(TypeName(k));
  }

  /** Settling changes only identity, AVD name and address. */
  lemma {:induction false} SettleKeeps(b: Block, id: string, s: Suffix)
    requires s != ID && s != AVD_NAME && s != SERIAL && s != WIFI_IP && s != WIFI_PORT
    ensures In(Settle(b, id), s) == In(b, s)
  {
    hide AddressOf, Trim;
  }

  /** The part of reading that all kinds share. */
  lemma {:induction false} ReadsCommon(c: Checks, rid: string, w: Values, i: nat, d: Device)
    requires HoldsCommon(w, i, d) && Lacks(w, i, d.kind.RedroidOf?) && DeviceAccepted(c, rid, d)
    requires d.kind.RedroidOf? ==> !HasSpace(Trim(In(BlockOf(w, i), SSH_KNOWN_HOSTS)))
    ensures var r := ReadTarget(rid, i, BlockOf(w, i));
            && r.Some? && Plain(r.value, i, d) && r.value.mode == In(BlockOf(w, i), MODE)
            && r.value.values == Settle(BlockOf(w, i), d.id)
            && Address(r.value.serial, r.value.wifiIP, r.value.wifiPort) == AddressOf(BlockOf(w, i))
    ensures In(BlockOf(w, i), TYPE) == TypeName(d.kind)
  {
    hide BlockOf, Settle, AddressOf, Trim, TypeName, KindAccepted, HasSpace, ReadBool, CanonicalText;
    var b := BlockOf(w, i);
    Reads(w, i, ID, d.id);
    Reads(w, i, NAME, d.name);
    Reads(w, i, DESCRIPTION, d.description);
    Reads(w, i, TYPE, TypeName(d.kind));
    Reads(w, i, ENABLED, ShowBool(d.enabled));
    CanonicalStays(d.id);
    BoolRoundTrip(d.enabled);
    TypeNameTrimmed(d.kind);
    BlockKeys(w, i);
    assert Trim("") == "" by { TrimTrims(""); }
    SettleKeeps(b, d.id, PORT);
    SettleKeeps(b, d.id, CONTAINER_NAME);
    SettleKeeps(b, d.id, WORK_DIR);
  }

  lemma {:induction false} PhysicalReads(p: Platform, c: Checks, rid: string, w: Values, i: nat, d: Device)
    requires HoldsCommon(w, i, d) && HoldsPhysical(w, i, d.kind) && Lacks(w, i, false) && DeviceAccepted(c, rid, d)
    ensures var r := ReadTarget(rid, i, BlockOf(w, i));
            r.Some? && Plain(r.value, i, d) && TypedKind(p, r.value) == Some(NormalKind(p, d.kind))
            && r.value.serial == SerialOf(d.kind)
  {
    hide BlockOf, Settle, Trim, ReadTarget, Plain, HoldsCommon, Lacks, WiFiSerial, DeviceAccepted;
    ReadsCommon(c, rid, w, i, d);
    var k := d.kind;
    assert KindAccepted(c, k) by { KindOf(c, rid, d); }
    Reads(w, i, MODE, k.transport);
    TrimTrims(k.transport);
    var t := ReadTarget(rid, i, BlockOf(w, i)).value;
    assert t.typ == "android_phone" && t.mode == k.transport by { PlainType(t, i, d); }
    if k.transport == "wifi" {
      Reads(w, i, WIFI_IP, k.wifiIP);
      Reads(w, i, WIFI_PORT, k.wifiPort);
      TrimTwice(k.wifiIP);
      TrimTwice(k.wifiPort);
      TrimTrims(DEFAULT_PORT);
      TrimmedSerial(k.wifiIP, PortOrDefault(k.wifiPort));
    } else if k.transport == "usb" {
      Reads(w, i, SERIAL, k.serial);
      TrimTwice(k.serial);
    }
  }

  lemma KindOf(c: Checks, rid: string, d: Device)
    requires DeviceAccepted(c, rid, d)
    ensures KindAccepted(c, d.kind)
  {
  }

  lemma PlainType(t: Target, i: nat, d: Device)
    requires Plain(t, i, d)
    ensures t.typ == TypeName(d.kind)
  {
  }

  lemma {:induction false} EmulatorReads(p: Platform, c: Checks, rid: string, w: Values, i: nat, d: Device)
    requires d.kind.AVD? && HoldsCommon(w, i, d) && HoldsEmulator(w, i, d.kind.emulator) && Lacks(w, i, false)
    requires DeviceAccepted(c, rid, d)
    ensures var r := ReadTarget(rid, i, BlockOf(w, i));
            r.Some? && Plain(r.value, i, d) && TypedKind(p, r.value) == Some(NormalKind(p, d.kind))
  {
    hide BlockOf, Settle, Trim, ReadTarget, Plain, HoldsCommon, Lacks, DeviceAccepted, TypedEmulator;
    ReadsCommon(c, rid, w, i, d);
    var t := ReadTarget(rid, i, BlockOf(w, i)).value;
    PlainType(t, i, d);
    assert KindAccepted(c, d.kind) by { KindOf(c, rid, d); }
    EmulatorTyped(p, c, w, i, d.id, d.kind.emulator);
  }

  lemma {:induction false} EmulatorTyped(p: Platform, c: Checks, w: Values, i: nat, id: string, e: Emulator)
    requires HoldsEmulator(w, i, e) && KindAccepted(c, AVD(e))
    ensures TypedEmulator(p, Settle(BlockOf(w, i), id)) == Some(NormalKind(p, AVD(e)))
  {
    hide BlockOf, Settle, Trim, ReadInt, ReadBool, ShowNat, ShowBool;
    var b := BlockOf(w, i);
    EmulatorTexts(w, i, id, e);
    NumberRoundTrip(e.apiLevel);
    NumberRoundTrip(e.memory);
    NumberRoundTrip(e.cores);
    BoolRoundTrip(e.headless);
    TrimTwice(e.abi);
    TrimTwice(e.systemImage);
    TrimTwice(e.baseName);
    TrimTwice(e.goldenSource);
  }

  lemma {:induction false} EmulatorTexts(w: Values, i: nat, id: string, e: Emulator)
    requires HoldsEmulator(w, i, e)
    ensures var b := Settle(BlockOf(w, i), id);
            && In(b, ABI) == Trim(e.abi) && In(b, SYSTEM_IMAGE) == Trim(e.systemImage)
            && In(b, BASE_NAME) == Trim(e.baseName)
            && In(b, GOLDEN_PATH) == Trim(e.goldenSource) && In(b, HEADLESS) == Trim(ShowBool(e.headless))
            && In(b, API_LEVEL) == Trim(ShowInt(e.apiLevel)) && In(b, MEMORY_MB) == Trim(ShowInt(e.memory))
            && In(b, CORES) == Trim(ShowInt(e.cores))
  {
    hide BlockOf, Settle, Trim, ShowInt, ShowBool;
    var b := BlockOf(w, i);
    Kept(w, i, id, ABI, e.abi);
    Kept(w, i, id, SYSTEM_IMAGE, e.systemImage);
    Kept(w, i, id, BASE_NAME, e.baseName);
    Kept(w, i, id, GOLDEN_PATH, e.goldenSource);
    Kept(w, i, id, HEADLESS, ShowBool(e.headless));
    Kept(w, i, id, API_LEVEL, ShowInt(e.apiLevel));
    Kept(w, i, id, MEMORY_MB, ShowInt(e.memory));
    Kept(w, i, id, CORES, ShowInt(e.cores));
  }

  lemma {:induction false} Kept(w: Values, i: nat, id: string, s: Suffix, text: string)
    requires Holds(w, i, s, text) && s != ID && s != AVD_NAME && s != SERIAL && s != WIFI_IP && s != WIFI_PORT
    ensures In(Settle(BlockOf(w, i), id), s) == Trim(text)
  {
    Reads(w, i, s, text);
    SettleKeeps(BlockOf(w, i), id, s);
  }

  lemma {:induction false} EffectiveTwice(p: Platform, target: string, path: string)
    requires Trimmed(p.knownHosts)
    ensures var e := EffectiveKnownHosts(p, target, path); Trim(e) == e && EffectiveKnownHosts(p, Trim(target), e) == e
  {
    hide Trim;
    TrimTwice(target);
    TrimTwice(path);
    TrimTrims(p.knownHosts);
  }

  lemma {:induction false} RedroidTexts(p: Platform, w: Values, i: nat, id: string, r: Redroid)
    requires HoldsRedroid(p, w, i, r) && Trimmed(p.knownHosts)
    ensures var b := Settle(BlockOf(w, i), id);
            && In(b, REDROID_IMAGE) == Trim(r.image) && In(b, REDROID_DATA_DIR) == Trim(r.dataDir)
            && In(b, REDROID_DATA_TAR) == Trim(r.dataArchive)
            && In(b, SSH_TARGET) == Trim(r.sshTarget) && In(b, SSH_PASSWORD) == Trim(r.sshPassword)
            && In(b, SSH_KNOWN_HOSTS) == EffectiveKnownHosts(p, r.sshTarget, r.knownHosts)
            && In(b, SUDO) == Trim(ShowBool(r.sudo)) && In(b, SUDO_PASSWORD) == Trim(r.sudoPassword)
  {
    hide BlockOf, Settle, Trim, ShowBool, EffectiveKnownHosts;
    EffectiveTwice(p, r.sshTarget, r.knownHosts);
    Kept(w, i, id, REDROID_IMAGE, r.image);
    Kept(w, i, id, REDROID_DATA_DIR, r.dataDir);
    Kept(w, i, id, REDROID_DATA_TAR, r.dataArchive);
    Kept(w, i, id, SSH_TARGET, r.sshTarget);
    Kept(w, i, id, SSH_PASSWORD, r.sshPassword);
    Kept(w, i, id, SSH_KNOWN_HOSTS, EffectiveKnownHosts(p, r.sshTarget, r.knownHosts));
    Kept(w, i, id, SUDO, ShowBool(r.sudo));
    Kept(w, i, id, SUDO_PASSWORD, r.sudoPassword);
  }

  /** Host and port of a Redroid device come through the address. */
  lemma {:induction false} RedroidAddress(p: Platform, w: Values, i: nat, r: Redroid)
    requires HoldsRedroid(p, w, i, r) && 1 <= r.port && In(BlockOf(w, i), TYPE) == "redroid" && Required(r.host)
    ensures AddressOf(BlockOf(w, i)) == Address(WiFiSerial(r.host, ShowInt(r.port)), Trim(r.host), ShowInt(r.port))
  {
    hide BlockOf, Trim, ShowNat, HoldsSSH, ReadInt, WiFiSerial;
    Reads(w, i, WIFI_IP, r.host);
    Reads(w, i, WIFI_PORT, ShowInt(r.port));
    NumberRoundTrip(r.port);
    TrimTwice(r.host);
    TrimmedSerial(r.host, ShowInt(r.port));
  }

  lemma {:induction false} RedroidReads(p: Platform, c: Checks, rid: string, w: Values, i: nat, d: Device)
    requires d.kind.RedroidOf? && HoldsCommon(w, i, d) && HoldsRedroid(p, w, i, d.kind.redroid) && Lacks(w, i, true)
    requires DeviceAccepted(c, rid, d) && Trimmed(p.knownHosts) && Passable(p, d)
    ensures var r := ReadTarget(rid, i, BlockOf(w, i));
            r.Some? && Plain(r.value, i, d) && TypedKind(p, r.value) == Some(NormalKind(p, d.kind))
            && r.value.serial == SerialOf(d.kind)
  {
    hide BlockOf, Settle, Trim, ReadTarget, Plain, HoldsCommon, HoldsContainer, HoldsSSH, Lacks, DeviceAccepted;
    hide WiFiSerial, EffectiveKnownHosts;
    hide TypedRedroid, HasSpace, NormalRedroid, AddressOf, ShowInt;
    var r := d.kind.redroid;
    var e := EffectiveKnownHosts(p, r.sshTarget, r.knownHosts);
    RedroidTexts(p, w, i, d.id, r);
    EffectiveTwice(p, r.sshTarget, r.knownHosts);
    SettleKeeps(BlockOf(w, i), d.id, SSH_KNOWN_HOSTS);
    ReadsCommon(c, rid, w, i, d);
    var t := ReadTarget(rid, i, BlockOf(w, i)).value;
    PlainType(t, i, d);
    assert KindAccepted(c, d.kind) by { KindOf(c, rid, d); }
    RedroidAddress(p, w, i, r);
    RedroidTyped(p, t, r);
  }

  lemma {:induction false} RedroidTyped(p: Platform, t: Target, r: Redroid)
    requires t.wifiIP == Trim(r.host) && t.wifiPort == ShowInt(r.port) && Trimmed(p.knownHosts)
    requires Required(r.host) && Required(r.image) && Required(r.dataDir) && Required(r.dataArchive)
    requires 1 <= r.port <= 65535
    requires var b := t.values;
             && In(b, REDROID_IMAGE) == Trim(r.image) && In(b, REDROID_DATA_DIR) == Trim(r.dataDir)
             && In(b, REDROID_DATA_TAR) == Trim(r.dataArchive)
             && In(b, SSH_TARGET) == Trim(r.sshTarget) && In(b, SSH_PASSWORD) == Trim(r.sshPassword)
             && In(b, SSH_KNOWN_HOSTS) == EffectiveKnownHosts(p, r.sshTarget, r.knownHosts)
             && In(b, SUDO) == Trim(ShowBool(r.sudo)) && In(b, SUDO_PASSWORD) == Trim(r.sudoPassword)
    requires !HasSpace(EffectiveKnownHosts(p, r.sshTarget, r.knownHosts))
    ensures TypedRedroid(p, t) == Some(RedroidOf(NormalRedroid(p, r)))
  {
    hide Trim, ReadInt, ReadBool, ShowNat, ShowBool, EffectiveKnownHosts, HasSpace;
    NumberRoundTrip(r.port);
    BoolRoundTrip(r.sudo);
    TrimTwice(r.image);
    TrimTwice(r.dataDir);
    TrimTwice(r.dataArchive);
    EffectiveTwice(p, r.sshTarget, r.knownHosts);
  }

  lemma {:induction false} SimulatorReads(p: Platform, c: Checks, rid: string, w: Values, i: nat, d: Device)
    requires d.kind.Simulator? && HoldsCommon(w, i, d) && Holds(w, i, IOS_UDID, d.kind.udid) && Lacks(w, i, false)
    requires DeviceAccepted(c, rid, d)
    ensures var r := ReadTarget(rid, i, BlockOf(w, i));
            r.Some? && Plain(r.value, i, d) && TypedKind(p, r.value) == Some(NormalKind(p, d.kind))
  {
    hide BlockOf, Settle, Trim, ReadTarget, Plain, HoldsCommon, Lacks, DeviceAccepted;
    ReadsCommon(c, rid, w, i, d);
    PlainType(ReadTarget(rid, i, BlockOf(w, i)).value, i, d);
    Kept(w, i, d.id, IOS_UDID, d.kind.udid);
  }

  /** What is read back from the block of an accepted device. */
  lemma {:induction false} DeviceReads(p: Platform, c: Checks, rid: string, u: Values, i: nat, d: Device)
    requires NoneAt(u, i) && DeviceAccepted(c, rid, d) && Trimmed(p.knownHosts) && Passable(p, d)
    ensures var r := ReadTarget(rid, i, BlockOf(PutDevice(p, u, i, d), i));
            && r.Some? && Plain(r.value, i, d) && TypedDevice(p, r.value) == Some(NormalDevice(p, d))
            && (d.kind.Physical? || d.kind.RedroidOf? ==> r.value.serial == SerialOf(d.kind))
  {
    hide PutDevice, BlockOf, HoldsPhysical, HoldsEmulator, HoldsRedroid, HoldsCommon, Lacks, ReadTarget, TypedKind;
    hide NormalKind, Trim, SerialOf, DeviceAccepted, Passable;
    var w := PutDevice(p, u, i, d);
    DeviceHolds(p, u, i, d);
    match d.kind
    case Physical(_, _, _, _) => PhysicalReads(p, c, rid, w, i, d);
    case AVD(_) => EmulatorReads(p, c, rid, w, i, d);
    case RedroidOf(_) => RedroidReads(p, c, rid, w, i, d);
    case Simulator(_) => SimulatorReads(p, c, rid, w, i, d);
  }

  /** A known-hosts path with a space in it is refused. */
  lemma {:induction false} SpaceIsRefused(p: Platform, rid: string, u: Values, i: nat, d: Device)
    requires NoneAt(u, i) && !Passable(p, d) && Trimmed(p.knownHosts)
    ensures ReadTarget(rid, i, BlockOf(PutDevice(p, u, i, d), i)) == None
  {
    hide PutDevice, BlockOf, HoldsCommon, HoldsContainer, Trim, EffectiveKnownHosts;
    var r := d.kind.redroid;
    var w := PutDevice(p, u, i, d);
    var e := EffectiveKnownHosts(p, r.sshTarget, r.knownHosts);
    DeviceHolds(p, u, i, d);
    EffectiveTwice(p, r.sshTarget, r.knownHosts);
    Reads(w, i, SSH_KNOWN_HOSTS, e);
    assert e != "";
  }
}
