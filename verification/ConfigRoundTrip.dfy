/** The main theorem about the two representations: an accepted configuration survives
    the way through the settings exactly if it is in canonical form. */
module ConfigRoundTrip {
  import opened Wrappers
  import opened Text
  import opened Numbers
  import opened ConfigSpec
  import opened ConfigBlocks
  import opened ConfigRules
  import opened ConfigProofs

  // ---------------------------------------------------------------- canonical form

  /** A listen address as printing its two parts gives it. */
  predicate ListenForm(p: Platform, listen: string) {
    p.split(listen).Some? && Join(p.split(listen).value.host, p.split(listen).value.port) == listen
  }

  predicate CanonicalKind(p: Platform, k: Kind) {
    match k
    case Physical(transport, serial, ip, port) =>
      (transport == "usb" ==> Trimmed(serial)) && (transport == "wifi" ==> Trimmed(ip) && Trimmed(port) && port != "")
    case AVD(e) => Trimmed(e.abi) && Trimmed(e.systemImage) && Trimmed(e.baseName) && Trimmed(e.goldenSource)
    case RedroidOf(r) =>
      && Trimmed(r.host) && Trimmed(r.image) && Trimmed(r.dataDir) && Trimmed(r.dataArchive)
      && Trimmed(r.sshTarget) && Trimmed(r.sshPassword) && Trimmed(r.sudoPassword)
      && !HasSpace(r.knownHosts) && (r.sshTarget == "" || r.knownHosts != "" || p.knownHosts == "")
    case Simulator(udid) => Trimmed(udid)
  }

  predicate CanonicalDevice(p: Platform, d: Device) {
    Trimmed(d.name) && Trimmed(d.description) && CanonicalKind(p, d.kind)
  }

  predicate Canonical(p: Platform, cfg: Config) {
    && ApplyDefaults(p, cfg) == Some(cfg)
    && ListenForm(p, cfg.server.apiListen) && ListenForm(p, cfg.server.dashboardListen)
    && forall i :: 0 <= i < |cfg.devices| ==> CanonicalDevice(p, cfg.devices[i])
  }

  // ---------------------------------------------------------------- one device

  lemma {:induction false} PathCanonical(p: Platform, r: Redroid)
    requires Trimmed(r.sshTarget)
    ensures var e := EffectiveKnownHosts(p, r.sshTarget, r.knownHosts);
            e == r.knownHosts && !HasSpace(e) <==>
              !HasSpace(r.knownHosts) && (r.sshTarget == "" || r.knownHosts != "" || p.knownHosts == "")
  {
    hide Trim;
    TrimTrims(r.knownHosts);
    TrimTrims(r.sshTarget);
    assert Trim("") == "" by { TrimTrims(""); }
    if !HasSpace(r.knownHosts) { NoSpaceIsTrimmed(r.knownHosts); }
    if Trim(r.knownHosts) == "" && r.knownHosts != "" { BlankHasSpace(r.knownHosts); }
  }

  lemma NoSpaceIsTrimmed(s: string)
    requires !HasSpace(s)
    ensures Trimmed(s)
  {
  }

  lemma {:induction false} BlankHasSpace(s: string)
    requires Trim(s) == "" && s != ""
    ensures HasSpace(s)
  {
    TrimTrims(s);
  }

  lemma {:induction false} PhysicalCanonical(p: Platform, c: Checks, k: Kind)
    requires k.Physical? && KindAccepted(c, k)
    ensures NormalKind(p, k) == k <==> CanonicalKind(p, k)
  {
    hide Trim;
    TrimTrims(k.serial);
    TrimTrims(k.wifiIP);
    TrimTrims(k.wifiPort);
    assert Trim("") == "" by { TrimTrims(""); }
  }

  predicate PathPasses(p: Platform, r: Redroid) { !HasSpace(EffectiveKnownHosts(p, r.sshTarget, r.knownHosts)) }

  lemma {:induction false} KindCanonical(p: Platform, c: Checks, k: Kind)
    requires KindAccepted(c, k)
    ensures NormalKind(p, k) == k && (k.RedroidOf? ==> PathPasses(p, k.redroid)) <==> CanonicalKind(p, k)
  {
    hide Trim, HasSpace, EffectiveKnownHosts;
    match k
    case Physical(_, _, _, _) => PhysicalCanonical(p, c, k);
    case AVD(e) =>
      TrimTrims(e.abi);
      TrimTrims(e.systemImage);
      TrimTrims(e.baseName);
      TrimTrims(e.goldenSource);
    case RedroidOf(r) =>
      TrimTrims(r.host);
      TrimTrims(r.image);
      TrimTrims(r.dataDir);
      TrimTrims(r.dataArchive);
      TrimTrims(r.sshTarget);
      TrimTrims(r.sshPassword);
      TrimTrims(r.sudoPassword);
      if Trimmed(r.sshTarget) { PathCanonical(p, r); }
    case Simulator(udid) => TrimTrims(udid);
  }

  /** A device comes back as it was exactly if it is canonical. */
  lemma {:induction false} DeviceCanonical(p: Platform, c: Checks, d: Device)
    requires KindAccepted(c, d.kind)
    ensures Passable(p, d) && NormalDevice(p, d) == d <==> CanonicalDevice(p, d)
  {
    hide Trim, HasSpace, EffectiveKnownHosts, NormalKind, CanonicalKind;
    KindCanonical(p, c, d.kind);
    TrimTrims(d.name);
    TrimTrims(d.description);
  }

  // ---------------------------------------------------------------- all devices

  ghost predicate Good(p: Platform, t: Target, i: nat, d: Device) {
    && Plain(t, i, d) && TypedDevice(p, t) == Some(NormalDevice(p, d))
    && (d.kind.Physical? || d.kind.RedroidOf? ==> t.serial == SerialOf(d.kind))
  }

  lemma {:induction false} TargetReads(p: Platform, c: Checks, rid: string, v: Values, devices: seq<Device>, i: nat)
    requires (forall k: Key :: k in v ==> !k.Dev?) && 1 <= i <= |devices| && DeviceAccepted(c, rid, devices[i - 1])
    requires Trimmed(p.knownHosts)
    ensures var r := ReadTarget(rid, i, BlockOf(PutDevices(p, v, devices), i));
            && (r.Some? <==> Passable(p, devices[i - 1])) && (r.Some? ==> Good(p, r.value, i, devices[i - 1]))
  {
    hide PutDevices, PutDevice, BlockOf, ReadTarget, Plain, TypedDevice, NormalDevice, SerialOf, DeviceAccepted;
    hide Passable;
    var d := devices[i - 1];
    BlockOfDevice(p, v, devices, i);
    var u :| NoneAt(u, i) && BlockOf(PutDevices(p, v, devices), i) == BlockOf(PutDevice(p, u, i, d), i);
    if Passable(p, d) { DeviceReads(p, c, rid, u, i, d); } else { SpaceIsRefused(p, rid, u, i, d); }
  }

  lemma {:induction false} TargetsRead(p: Platform, c: Checks, rid: string, v: Values, devices: seq<Device>, n: nat)
    requires (forall k: Key :: k in v ==> !k.Dev?) && n <= |devices| && Trimmed(p.knownHosts)
    requires forall i :: 0 <= i < |devices| ==> DeviceAccepted(c, rid, devices[i])
    ensures var r := ReadTargets(rid, PutDevices(p, v, devices), n);
            && (r.Some? <==> forall i :: 0 <= i < n ==> Passable(p, devices[i]))
            && (r.Some? ==> |r.value| == n && forall i :: 0 <= i < n ==> Good(p, r.value[i], i + 1, devices[i]))
  {
    hide PutDevices, BlockOf, ReadTarget, Good, DeviceAccepted, Passable;
    if n > 0 {
      TargetsRead(p, c, rid, v, devices, n - 1);
      TargetReads(p, c, rid, v, devices, n);
    }
  }

  function NormalDevices(p: Platform, devices: seq<Device>): seq<Device> {
    seq(|devices|, i requires 0 <= i < |devices| => NormalDevice(p, devices[i]))
  }

  lemma {:induction false} DevicesTyped(p: Platform, ts: seq<Target>, devices: seq<Device>)
    requires |ts| == |devices| && forall i :: 0 <= i < |ts| ==> Good(p, ts[i], i + 1, devices[i])
    ensures TypedDevices(p, ts) == Some(NormalDevices(p, devices))
  {
    hide Plain, NormalDevice, SerialOf, TypedDevice;
    if ts != [] {
      var n := |ts| - 1;
      DevicesTyped(p, ts[..n], devices[..n]);
      assert NormalDevices(p, devices) == NormalDevices(p, devices[..n]) + [NormalDevice(p, devices[n])];
    }
  }

  /** Accepted canonical devices do not clash as targets. */
  lemma {:induction false} NoClash(
      p: Platform, c: Checks, rid: string, s: Target, t: Target, i: nat, j: nat, a: Device, b: Device)
    requires Good(p, s, i, a) && Good(p, t, j, b) && CanonicalDevice(p, a) && CanonicalDevice(p, b)
    requires DeviceAccepted(c, rid, a) && DeviceAccepted(c, rid, b) && !Conflict(a, b)
    ensures !Clash(s, t)
  {
    hide NormalDevice, TypedDevice, Trim, SerialOf, KindAccepted, CanonicalText, CanonicalKind, Endpoint;
    TrimTrims(a.name);
    TrimTrims(b.name);
    assert Trim("") == "" by { TrimTrims(""); }
    if HasSerial(s) && HasSerial(t) {
      SerialIsEndpoint(p, c, a);
      SerialIsEndpoint(p, c, b);
    }
  }

  lemma {:induction false} SerialIsEndpoint(p: Platform, c: Checks, d: Device)
    requires CanonicalKind(p, d.kind) && KindAccepted(c, d.kind) && (d.kind.Physical? || d.kind.RedroidOf?)
    ensures SerialOf(d.kind) != "" ==> Endpoint(d.kind) == Some(SerialOf(d.kind))
  {
    hide Trim, ShowNat, Join;
    match d.kind
    case Physical(transport, serial, ip, port) =>
      TrimTrims(serial);
      TrimTrims(ip);
      TrimTwice(port);
      TrimTrims(DEFAULT_PORT);
    case RedroidOf(r) =>
      TrimTrims(r.host);
      NumberRoundTrip(r.port);
    case _ =>
  }

  lemma {:induction false} AllCompatible(p: Platform, c: Checks, rid: string, ts: seq<Target>, devices: seq<Device>)
    requires |ts| == |devices| && forall i :: 0 <= i < |ts| ==> Good(p, ts[i], i + 1, devices[i])
    requires DevicesAccepted(c, rid, devices) && forall i :: 0 <= i < |devices| ==> CanonicalDevice(p, devices[i])
    ensures Compatible(ts)
  {
    hide Good, CanonicalDevice, DeviceAccepted, Conflict, Clash;
    forall i, j | 0 <= i < j < |ts| ensures !Clash(ts[i], ts[j]) {
      NoClash(p, c, rid, ts[i], ts[j], i + 1, j + 1, devices[i], devices[j]);
    }
  }

  ghost predicate HostsOnly(v: Values) { forall k: Key :: k in v ==> k.Host? }

  lemma {:induction false} KeysAllowed(p: Platform, defaults: Values, cfg: Config)
    requires HostsOnly(defaults)
    ensures forall k :: k in ValuesFromTyped(p, defaults, cfg) ==> KeyAllowed(k, |cfg.devices|)
  {
    hide PutHost, PutDevices, HostText;
    var v := PutHost(p, defaults, cfg);
    HostPrinted(p, defaults, cfg);
    assert HostsOnly(v);
    PutDevicesKeys(p, v[Count := ShowNat(|cfg.devices|)], cfg.devices);
  }

  lemma {:induction false} CountReads(n: nat)
    requires n <= MAX_INT
    ensures ReadInt(Trim(ShowNat(n))) == Some(n) && (Trim(ShowNat(n)) == "" || Trim(ShowNat(n)) == "0" <==> n == 0)
  {
    NumberRoundTrip(n);
  }

  /** The devices of an accepted configuration come back exactly if all are canonical. */
  lemma {:induction false} DevicesRead(p: Platform, c: Checks, defaults: Values, cfg: Config)
    requires HostsOnly(defaults) && CanonicalText(cfg.runner.id) && DevicesAccepted(c, cfg.runner.id, cfg.devices)
    requires Trimmed(p.knownHosts)
    ensures ReadDevices(p, ValuesFromTyped(p, defaults, cfg)) == Some(cfg.devices)
            <==> forall i :: 0 <= i < |cfg.devices| ==> CanonicalDevice(p, cfg.devices[i])
  {
    hide ValuesFromTyped, CanonicalDevice, DevicesAccepted, TypedDevices, ReadTargets, Compatible, KeyAllowed, Trim;
    hide ShowNat, ReadInt, HostText, CanonicalID, CanonicalText;
    var v := ValuesFromTyped(p, defaults, cfg);
    HostTextOf(p, defaults, cfg, KRunner(SRunnerID));
    assert HostText(p, defaults, cfg, KRunner(SRunnerID)) == cfg.runner.id by { RunnerIDText(p, defaults, cfg); }
    CanonicalStays(cfg.runner.id);
    CountReads(|cfg.devices|);
    KeysAllowed(p, defaults, cfg);
    if |cfg.devices| > 0 {
      assert cfg.runner.id != "" by { NotEmpty(cfg.runner.id); }
      TargetsDecide(p, c, defaults, cfg);
    }
  }

  lemma NotEmpty(s: string)
    requires CanonicalText(s)
    ensures s != ""
  {
  }

  lemma RunnerIDText(p: Platform, defaults: Values, cfg: Config)
    ensures HostText(p, defaults, cfg, KRunner(SRunnerID)) == cfg.runner.id
  {
  }

  lemma {:induction false} TargetsDecide(p: Platform, c: Checks, defaults: Values, cfg: Config)
    requires HostsOnly(defaults) && DevicesAccepted(c, cfg.runner.id, cfg.devices) && Trimmed(p.knownHosts)
    ensures var r := ReadTargets(cfg.runner.id, ValuesFromTyped(p, defaults, cfg), |cfg.devices|);
            r.Some? && Compatible(r.value) && TypedDevices(p, r.value) == Some(cfg.devices)
            <==> forall i :: 0 <= i < |cfg.devices| ==> CanonicalDevice(p, cfg.devices[i])
  {
    hide PutHost, PutDevices, CanonicalDevice, Conflict, TypedDevices, ReadTargets, Compatible, ShowNat, HostText, Good;
    hide NormalDevice, Passable;
    var v := PutHost(p, defaults, cfg)[Count := ShowNat(|cfg.devices|)];
    HostPrinted(p, defaults, cfg);
    assert forall k: Key :: k in v ==> !k.Dev?;
    TargetsRead(p, c, cfg.runner.id, v, cfg.devices, |cfg.devices|);
    forall i | 0 <= i < |cfg.devices|
      ensures Passable(p, cfg.devices[i]) && NormalDevice(p, cfg.devices[i]) == cfg.devices[i] <==>
          CanonicalDevice(p, cfg.devices[i])
    {
      DeviceCanonical(p, c, cfg.devices[i]);
    }
    var r := ReadTargets(cfg.runner.id, PutDevices(p, v, cfg.devices), |cfg.devices|);
    if r.Some? {
      DevicesTyped(p, r.value, cfg.devices);
      SameDevices(p, cfg.devices);
      if forall i :: 0 <= i < |cfg.devices| ==> CanonicalDevice(p, cfg.devices[i]) {
        AllCompatible(p, c, cfg.runner.id, r.value, cfg.devices);
      }
    }
  }

  lemma {:induction false} SameDevices(p: Platform, devices: seq<Device>)
    ensures NormalDevices(p, devices) == devices
            <==> forall i :: 0 <= i < |devices| ==> NormalDevice(p, devices[i]) == devices[i]
  {
    hide NormalDevice;
    var n := NormalDevices(p, devices);
    if n == devices {
      forall i | 0 <= i < |devices|
        ensures NormalDevice(p, devices[i]) == devices[i] { assert n[i] == NormalDevice(p, devices[i]); }
    }
  }

  // ---------------------------------------------------------------- host settings

  lemma {:induction false} FlagReads(b: bool, fallback: bool)
    ensures ReadFlag(ShowBool(b), fallback) == Some(b)
  {
    BoolRoundTrip(b);
  }

  lemma {:induction false} TimeReads(p: Platform, d: int, fallback: int)
    requires Faithful(p)
    ensures ReadTime(p, p.showDuration(d), fallback) == Some(d)
  {
    hide Trim;
    TrimTrims(p.showDuration(d));
  }

  lemma {:induction false} RunnerReads(p: Platform, defaults: Values, cfg: Config)
    requires HostsOnly(defaults)
    ensures ReadRunner(ValuesFromTyped(p, defaults, cfg)) == Some(cfg.runner)
  {
    hide ValuesFromTyped, ShowBool, ReadBool, ReadFlag;
    HostTextOf(p, defaults, cfg, KRunner(SRunnerID));
    HostTextOf(p, defaults, cfg, KRunner(SRunnerName));
    HostTextOf(p, defaults, cfg, KRunner(SOrganization));
    HostTextOf(p, defaults, cfg, KRunner(SDescription));
    HostTextOf(p, defaults, cfg, KRunner(SPublished));
    FlagReads(cfg.runner.published, false);
  }

  lemma {:induction false} CredimiReads(p: Platform, c: Checks, defaults: Values, cfg: Config)
    requires HostsOnly(defaults) && CredimiAccepted(c, cfg.credimi)
    ensures ReadCredimi(ValuesFromTyped(p, defaults, cfg)) == cfg.credimi
    ensures H(ValuesFromTyped(p, defaults, cfg), KTemporal) == cfg.temporal
  {
    hide ValuesFromTyped, Trim;
    HostTextOf(p, defaults, cfg, KCredimi(SURL));
    HostTextOf(p, defaults, cfg, KCredimi(SAuthMode));
    HostTextOf(p, defaults, cfg, KCredimi(SUserKey));
    HostTextOf(p, defaults, cfg, KCredimi(SAdminKey));
    HostTextOf(p, defaults, cfg, KTemporal);
    TrimTrims(cfg.credimi.authMode);
  }

  lemma {:induction false} SchemaReads(p: Platform, defaults: Values, cfg: Config)
    requires HostsOnly(defaults) && cfg.schema == 1
    ensures ReadSchema(ValuesFromTyped(p, defaults, cfg)) == Some(1)
  {
    hide ValuesFromTyped, ReadInt, ShowNat, Trim;
    HostTextOf(p, defaults, cfg, KSchema);
    NumberRoundTrip(1);
  }

  /** A listen address comes back as its two parts are joined. */
  function Rejoined(p: Platform, listen: string): string
    requires p.split(listen).Some?
  {
    Join(p.split(listen).value.host, p.split(listen).value.port)
  }

  lemma {:induction false} ServerReads(p: Platform, defaults: Values, cfg: Config)
    requires HostsOnly(defaults) && Faithful(p) && ServerAccepted(p, cfg.server)
    ensures ReadServer(p, ValuesFromTyped(p, defaults, cfg))
            == Some(cfg.server.(apiListen := Rejoined(p, cfg.server.apiListen),
                                dashboardListen := Rejoined(p, cfg.server.dashboardListen)))
  {
    hide ValuesFromTyped, ShowBool, ReadFlag, ReadTime, Faithful, Join;
    HostTextOf(p, defaults, cfg, KServer(SToken));
    HostTextOf(p, defaults, cfg, KServer(SOpenBrowser));
    HostTextOf(p, defaults, cfg, KServer(SHeaderTimeout));
    HostTextOf(p, defaults, cfg, KServer(SShutdownTimeout));
    HostTextOf(p, defaults, cfg, KServer(SRunnerHost));
    HostTextOf(p, defaults, cfg, KServer(SRunnerPort));
    HostTextOf(p, defaults, cfg, KServer(SDashboardHost));
    HostTextOf(p, defaults, cfg, KServer(SDashboardPort));
    FlagReads(cfg.server.openBrowser, true);
    TimeReads(p, cfg.server.headerTimeout, 0);
    TimeReads(p, cfg.server.shutdownTimeout, 0);
  }

  lemma {:induction false} StorageReads(p: Platform, defaults: Values, cfg: Config)
    requires HostsOnly(defaults) && Faithful(p)
    ensures var v := ValuesFromTyped(p, defaults, cfg);
            ReadStorage(p, v) == Some(cfg.storage) && ReadObservability(v) == Some(cfg.observability)
  {
    hide ValuesFromTyped, ShowBool, ReadFlag, ReadTime, Faithful;
    HostTextOf(p, defaults, cfg, KStorage(STempDir));
    HostTextOf(p, defaults, cfg, KStorage(SStateDir));
    HostTextOf(p, defaults, cfg, KStorage(SRetention));
    HostTextOf(p, defaults, cfg, KObservability(SOtelEnabled));
    HostTextOf(p, defaults, cfg, KObservability(SOtelEndpoint));
    HostTextOf(p, defaults, cfg, KObservability(SOtelService));
    FlagReads(cfg.observability.enabled, false);
    TimeReads(p, cfg.storage.retention, 0);
  }

  lemma {:induction false} AndroidReads(p: Platform, defaults: Values, cfg: Config)
    requires HostsOnly(defaults)
    ensures ReadAndroid(ValuesFromTyped(p, defaults, cfg)) == cfg.android
  {
    hide ValuesFromTyped;
    HostTextOf(p, defaults, cfg, KAndroid(SImage));
    HostTextOf(p, defaults, cfg, KAndroid(SPullPolicy));
    HostTextOf(p, defaults, cfg, KAndroid(SNetwork));
    HostTextOf(p, defaults, cfg, KAndroid(SStateVolume));
    HostTextOf(p, defaults, cfg, KAndroid(SToolVolume));
    HostTextOf(p, defaults, cfg, KAndroid(SSDKVolume));
    HostTextOf(p, defaults, cfg, KAndroid(SADBKeys));
    HostTextOf(p, defaults, cfg, KAndroid(SRecordSize));
  }

  lemma {:induction false} ExposureReads(p: Platform, c: Checks, defaults: Values, cfg: Config)
    requires HostsOnly(defaults) && ExposureAccepted(c, cfg.exposure)
    ensures ReadExposure(ValuesFromTyped(p, defaults, cfg)) == cfg.exposure
  {
    hide ValuesFromTyped, ValidPort, Required;
    HostTextOf(p, defaults, cfg, KExposure(SMode));
    HostTextOf(p, defaults, cfg, KExposure(SPublicURL));
    HostTextOf(p, defaults, cfg, KExposure(SPublicPort));
    HostTextOf(p, defaults, cfg, KExposure(SDomain));
    HostTextOf(p, defaults, cfg, KExposure(SCloudflare));
  }

  // ---------------------------------------------------------------- the theorem

  lemma DefaultsTwice(p: Platform, cfg: Config)
    requires ApplyDefaults(p, cfg).Some?
    requires p.stateDir.Some? ==> p.stateDir.value != "" && forall s :: p.under(s) != ""
    ensures ApplyDefaults(p, ApplyDefaults(p, cfg).value) == ApplyDefaults(p, cfg)
  {
  }

  /** Reading gives the configuration with its listen addresses rejoined, provided
      that the devices come back. */
  lemma {:induction false} ConfigReads(p: Platform, c: Checks, defaults: Values, cfg: Config)
    requires HostsOnly(defaults) && GoodPlatform(p) && Accepted(p, c, cfg)
    ensures var r := ReadConfig(p, ValuesFromTyped(p, defaults, cfg));
            var devices := ReadDevices(p, ValuesFromTyped(p, defaults, cfg));
            && (r.Some? <==> devices.Some?)
            && (r.Some? ==> r.value == cfg.(devices := devices.value,
                  server := cfg.server.(apiListen := Rejoined(p, cfg.server.apiListen),
                                        dashboardListen := Rejoined(p, cfg.server.dashboardListen))))
  {
    hide ValuesFromTyped, ReadSchema, ReadRunner, ReadCredimi, ReadServer, ReadStorage, ReadObservability, ReadAndroid;
    hide ReadExposure, ReadDevices;
    hide H, Faithful, Rejoined, RunnerAccepted, CredimiAccepted, StorageAccepted, ExposureAccepted, AndroidAccepted;
    hide DevicesAccepted, Required;
    SchemaReads(p, defaults, cfg);
    RunnerReads(p, defaults, cfg);
    CredimiReads(p, c, defaults, cfg);
    ServerReads(p, defaults, cfg);
    StorageReads(p, defaults, cfg);
    AndroidReads(p, defaults, cfg);
    ExposureReads(p, c, defaults, cfg);
  }

  /** Every accepted configuration, with any number of devices, comes back unchanged
      exactly if it is canonical: its defaults are filled in, its listen addresses are
      in joined form, and its device texts are trimmed and explicit. */
  lemma {:induction false} RoundTripExactly(p: Platform, c: Checks, defaults: Values, cfg: Config)
    requires HostsOnly(defaults) && GoodPlatform(p) && Accepted(p, c, cfg)
    requires p.stateDir.Some? ==> p.stateDir.value != "" && forall s :: p.under(s) != ""
    ensures TypedFromValues(p, ValuesFromTyped(p, defaults, cfg)) == Some(cfg) <==> Canonical(p, cfg)
  {
    hide ValuesFromTyped, ReadConfig, ReadDevices, ApplyDefaults, CanonicalDevice, Faithful;
    hide RunnerAccepted, CredimiAccepted, StorageAccepted, ExposureAccepted, AndroidAccepted, DevicesAccepted, Required;
    var devices := ReadDevices(p, ValuesFromTyped(p, defaults, cfg));
    ConfigReads(p, c, defaults, cfg);
    assert CanonicalText(cfg.runner.id) by { RunnerCanonical(cfg.runner); }
    DevicesRead(p, c, defaults, cfg);
    var api, dashboard := Rejoined(p, cfg.server.apiListen), Rejoined(p, cfg.server.dashboardListen);
    if devices.Some? {
      var read := cfg.(devices := devices.value, server := cfg.server.(apiListen := api, dashboardListen := dashboard));
      DefaultsKeep(p, read);
      if ApplyDefaults(p, read) == Some(cfg) { DefaultsTwice(p, read); }
    }
  }

  lemma RunnerCanonical(r: Runner)
    requires RunnerAccepted(r)
    ensures CanonicalText(r.id)
  {
  }

  /** Defaults leave devices alone, and listen addresses that are not empty. */
  lemma DefaultsKeep(p: Platform, cfg: Config)
    ensures var r := ApplyDefaults(p, cfg);
            && (r.Some? ==> r.value.devices == cfg.devices)
            && (r.Some? && cfg.server.apiListen != "" ==> r.value.server.apiListen == cfg.server.apiListen)
            && (r.Some? && cfg.server.dashboardListen != "" ==>
                 r.value.server.dashboardListen == cfg.server.dashboardListen)
  {
  }
}
