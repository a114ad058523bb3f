/** The service as it is rendered from a configuration, and what the compatibility
    decision therefore guarantees: an applied service that is found compatible
    provides what the desired one would have been given. */
module ServiceRender {
  import opened Wrappers
  import opened Text
  import opened ServiceCompat

  datatype Mount = Mount(source: string, target: string, readOnly: bool)

  /** Directories of the host, and whether a file can be mounted. */
  datatype Place = Place(home: string, androidDir: string, goldenRoot: string, configDir: string, kvm: bool,
                         available: set<string>)

  /** A published port: where on the host, and which one on both sides. */
  datatype Port = Port(hostIP: string, port: string)

  /** What every service has: image, networks, volumes and published ports. */
  datatype Frame = Frame(image: string, pullPolicy: string, networks: seq<string>, mode: Mode, volumes: seq<string>,
                         ports: seq<Port>)

  /** `hostADB`: the socket of the host's ADB server is passed in. */
  datatype Spec = Spec(frame: Frame, mounts: seq<Mount>, usb: bool, kvm: bool, hostADB: bool)

  const ANDROID_TARGET := "/root/.android"
  const GOLDEN_TARGET := "/avd-golden"
  const CONFIG_TARGET := "/etc/credimi-runner"

  const DEFAULT_IMAGE := "ghcr.io/forkbombeu/credimi-runner:latest"
  const DEFAULT_POLICY := "missing"

  // ---------------------------------------------------------------- as a function

  function OrDefault(s: string, fallback: string): string { if Trim(s) == "" then fallback else s }

  /** The API is published to everybody only for a manual endpoint. */
  function PortsOf(cfg: Config, host: Host): seq<Port> {
    if ModeFor(cfg, host).HostNetwork? then []
    else
      var dashboard := if cfg.dashboardPort != "" then [Port(cfg.dashboardBind.host, cfg.dashboardPort)] else [];
      var api := Port(if cfg.manual then "0.0.0.0" else "127.0.0.1", cfg.apiPort);
      if cfg.apiPort != "" && cfg.apiPort != "0" && api !in dashboard then dashboard + [api] else dashboard
  }

  function NetworksOf(s: Settings): seq<string> {
    var name := Trim(s.network);
    if name != "" && !EqualFold(name, "host") && !EqualFold(name, "bridge") then [name] else []
  }

  function FrameOf(cfg: Config, host: Host): Frame {
    var s := cfg.settings;
    var policy := if Trim(s.pullPolicy) == "" || s.pullPolicy == "if-not-present" then DEFAULT_POLICY else s.pullPolicy;
    Frame(OrDefault(s.runnerImage, DEFAULT_IMAGE), policy,
          NetworksOf(s), ModeFor(cfg, host),
          [OrDefault(s.stateVolume, "credimi-runner-state"), OrDefault(s.toolCacheVolume, "credimi-runner-tools"),
           OrDefault(s.sdkVolume, "credimi-runner-sdk")],
          PortsOf(cfg, host))
  }

  predicate HasTarget(mounts: seq<Mount>, target: string) { exists m :: m in mounts && m.target == target }

  /** The first mount of a target wins. */
  function AppendMount(mounts: seq<Mount>, m: Mount): seq<Mount> {
    if HasTarget(mounts, m.target) then mounts else mounts + [m]
  }

  /** The path of a device's known-hosts file, with the host's default filled in. */
  function PathOf(d: Device, home: string): string {
    if !d.enabled || !d.kind.Redroid? || d.kind.ssh.None? then ""
    else
      var path := Trim(d.kind.ssh.value.knownHosts);
      if path == "" && Trim(d.kind.ssh.value.target) != "" then home + "/.ssh/known_hosts" else path
  }

  predicate UsesAndroid(d: Device) {
    d.enabled && d.kind.Physical? && d.kind.transport.Some? && d.kind.transport.value != "no_device"
  }

  predicate UsesUSB(d: Device) { UsesAndroid(d) && d.kind.transport.value == "usb" }

  predicate UsesEmulator(d: Device) { d.enabled && d.kind.Emulator? }

  predicate Renderable(d: Device, place: Place) {
    d.enabled ==> !d.kind.Other? && (d.kind.Emulator? ==> d.kind.configured) && (d.kind.Redroid? ==> d.kind.ssh.Some?)
                  && (PathOf(d, place.home) != "" ==> PathOf(d, place.home) in place.available)
  }

  predicate AnyDevice(devices: seq<Device>, p: Device -> bool) { exists d :: d in devices && p(d) }

  function KnownHostsMounts(devices: seq<Device>, home: string): seq<Mount> {
    if devices == [] then []
    else
      var before := KnownHostsMounts(devices[..|devices| - 1], home);
      var path := PathOf(devices[|devices| - 1], home);
      if path == "" then before else AppendMount(before, Mount(path, path, true))
  }

  /** The Android state of the host; with keys of its own and no emulator only these. */
  function AndroidMount(cfg: Config, place: Place): Mount {
    if cfg.settings.adbKeysPath != "" && !AnyDevice(cfg.devices, UsesEmulator)
       && AnyDevice(cfg.devices, UsesAndroid) then
      Mount(cfg.settings.adbKeysPath, ANDROID_TARGET, true)
    else Mount(place.androidDir, ANDROID_TARGET, false)
  }

  function MountsOf(cfg: Config, host: Host, place: Place): seq<Mount> {
    var known := KnownHostsMounts(cfg.devices, place.home);
    var golden := Mount(place.goldenRoot, GOLDEN_TARGET, false);
    var android := if host.linux then AppendMount(AppendMount(known, AndroidMount(cfg, place)), golden) else known;
    AppendMount(android, Mount(place.configDir, CONFIG_TARGET, false))
  }

  function Build(cfg: Config, host: Host, place: Place): Option<Spec> {
    if place.home == "" || exists d :: d in cfg.devices && !Renderable(d, place) then None
    else Some(Spec(FrameOf(cfg, host), MountsOf(cfg, host, place), host.linux && AnyDevice(cfg.devices, UsesUSB),
                   host.linux && place.kvm && AnyDevice(cfg.devices, UsesEmulator),
                   host.beforeSetup || AnyDevice(cfg.devices, UsesAndroid)))
  }

  // ---------------------------------------------------------------- as a program

  method AppendBindMount(mounts: seq<Mount>, candidate: Mount) returns (r: seq<Mount>)
    ensures r == AppendMount(mounts, candidate)
  {
    for k := 0 to |mounts|
      invariant forall i :: 0 <= i < k ==> mounts[i].target != candidate.target
    {
      if mounts[k].target == candidate.target { return mounts; }
    }
    r := mounts + [candidate];
  }

  method BuildServiceSpec(cfg: Config, host: Host, place: Place) returns (spec: Option<Spec>)
    ensures spec == Build(cfg, host, place)
  {
    hide FrameOf, MountsOf, PathOf;
    if place.home == "" { return None; }
    var needsAndroid, needsEmulator, needsUSB := false, false, false;
    for k := 0 to |cfg.devices|
      invariant forall i :: 0 <= i < k ==> Renderable(cfg.devices[i], place)
      invariant needsAndroid <==> exists i :: 0 <= i < k && UsesAndroid(cfg.devices[i])
      invariant needsEmulator <==> exists i :: 0 <= i < k && UsesEmulator(cfg.devices[i])
      invariant needsUSB <==> exists i :: 0 <= i < k && UsesUSB(cfg.devices[i])
    {
      var d := cfg.devices[k];
      if !Renderable(d, place) { return None; }
      if UsesAndroid(d) { needsAndroid := true; }
      if UsesUSB(d) { needsUSB := true; }
      if UsesEmulator(d) { needsEmulator := true; }
    }
    var frame := BuildFrame(cfg, host);
    var mounts := BuildMounts(cfg, host, place, needsAndroid, needsEmulator);
    spec := Some(Spec(frame, mounts, host.linux && needsUSB, host.linux && place.kvm && needsEmulator,
                      host.beforeSetup || needsAndroid));
  }

  method BuildFrame(cfg: Config, host: Host) returns (frame: Frame)
    ensures frame == FrameOf(cfg, host)
  {
    hide ModeFor, EqualFold, Trim;
    var s := cfg.settings;
    var networks: seq<string> := [];
    var name := Trim(s.network);
    if name != "" && !EqualFold(name, "host") && !EqualFold(name, "bridge") { networks := [name]; }
    var policy := s.pullPolicy;
    if Trim(policy) == "" || policy == "if-not-present" { policy := DEFAULT_POLICY; }
    var mode := ModeFor(cfg, host);
    var ports: seq<Port> := [];
    if mode != HostNetwork {
      if cfg.dashboardPort != "" { ports := AppendPort(ports, Port(cfg.dashboardBind.host, cfg.dashboardPort)); }
      if cfg.apiPort != "" && cfg.apiPort != "0" {
        ports := AppendPort(ports, Port(if cfg.manual then "0.0.0.0" else "127.0.0.1", cfg.apiPort));
      }
    }
    frame := Frame(OrDefault(s.runnerImage, DEFAULT_IMAGE), policy, networks, mode,
                   [OrDefault(s.stateVolume, "credimi-runner-state"),
                    OrDefault(s.toolCacheVolume, "credimi-runner-tools"),
                    OrDefault(s.sdkVolume, "credimi-runner-sdk")], ports);
  }

  method AppendPort(ports: seq<Port>, candidate: Port) returns (r: seq<Port>)
    ensures r == if candidate in ports then ports else ports + [candidate]
  {
    for k := 0 to |ports|
      invariant forall i :: 0 <= i < k ==> ports[i] != candidate
    {
      if ports[k] == candidate { return ports; }
    }
    r := ports + [candidate];
  }

  method BuildMounts(
      cfg: Config, host: Host, place: Place, needsAndroid: bool, needsEmulator: bool) returns (mounts: seq<Mount>)
    requires needsAndroid == AnyDevice(cfg.devices, UsesAndroid)
    requires needsEmulator == AnyDevice(cfg.devices, UsesEmulator)
    ensures mounts == MountsOf(cfg, host, place)
  {
    hide AppendMount, PathOf, UsesAndroid, UsesEmulator;
    mounts := [];
    for k := 0 to |cfg.devices|
      invariant mounts == KnownHostsMounts(cfg.devices[..k], place.home)
    {
      assert cfg.devices[..k + 1][..k] == cfg.devices[..k];
      var path := PathOf(cfg.devices[k], place.home);
      if path != "" { mounts := AppendBindMount(mounts, Mount(path, path, true)); }
    }
    assert cfg.devices[..|cfg.devices|] == cfg.devices;
    if host.linux {
      var source, readOnly := place.androidDir, false;
      if cfg.settings.adbKeysPath != "" && !needsEmulator && needsAndroid {
        source, readOnly := cfg.settings.adbKeysPath, true;
      }
      mounts := AppendBindMount(mounts, Mount(source, ANDROID_TARGET, readOnly));
      mounts := AppendBindMount(mounts, Mount(place.goldenRoot, GOLDEN_TARGET, false));
    }
    mounts := AppendBindMount(mounts, Mount(place.configDir, CONFIG_TARGET, false));
  }

  // ---------------------------------------------------------------- mounts

  ghost predicate DistinctTargets(mounts: seq<Mount>) {
    forall i, j :: 0 <= i < j < |mounts| ==> mounts[i].target != mounts[j].target
  }

  lemma {:induction false} AppendKeeps(mounts: seq<Mount>, m: Mount)
    ensures DistinctTargets(mounts) ==> DistinctTargets(AppendMount(mounts, m))
    ensures forall t :: HasTarget(AppendMount(mounts, m), t) <==> HasTarget(mounts, t) || t == m.target
  {
    if !HasTarget(mounts, m.target) {
      forall i | 0 <= i < |mounts| ensures mounts[i].target != m.target { assert mounts[i] in mounts; }
      forall t ensures HasTarget(mounts + [m], t) <==> HasTarget(mounts, t) || t == m.target {
        if x :| x in mounts && x.target == t { assert x in mounts + [m]; }
        assert m in mounts + [m];
      }
    }
  }

  lemma {:induction false} KnownHostsTargets(devices: seq<Device>, home: string)
    ensures DistinctTargets(KnownHostsMounts(devices, home))
    ensures forall t :: HasTarget(KnownHostsMounts(devices, home), t)
                <==> t != "" && exists d :: d in devices && PathOf(d, home) == t
  {
    hide AppendMount, PathOf, HasTarget, DistinctTargets;
    assert DistinctTargets([]) && forall t :: !HasTarget([], t) by { NoTargets(); }
    if devices != [] {
      var n := |devices| - 1;
      var path := PathOf(devices[n], home);
      KnownHostsTargets(devices[..n], home);
      AppendKeeps(KnownHostsMounts(devices[..n], home), Mount(path, path, true));
      assert devices == devices[..n] + [devices[n]];
    }
  }

  lemma NoTargets()
    ensures DistinctTargets([]) && forall t :: !HasTarget([], t)
  {
  }

  /** Nothing is mounted twice at one place, and the places are the known-hosts files
      of the devices, the Android and golden directories, and the configuration. */
  lemma {:induction false} MountTargets(cfg: Config, host: Host, place: Place)
    ensures DistinctTargets(MountsOf(cfg, host, place))
    ensures forall t :: HasTarget(MountsOf(cfg, host, place), t) <==>
              (t != "" && exists d :: d in cfg.devices && PathOf(d, place.home) == t) || t == CONFIG_TARGET
              || (host.linux && (t == ANDROID_TARGET || t == GOLDEN_TARGET))
  {
    hide AppendMount, PathOf, HasTarget, DistinctTargets, AndroidMount;
    var known := KnownHostsMounts(cfg.devices, place.home);
    KnownHostsTargets(cfg.devices, place.home);
    if host.linux {
      var one := AppendMount(known, AndroidMount(cfg, place));
      var two := AppendMount(one, Mount(place.goldenRoot, GOLDEN_TARGET, false));
      AppendKeeps(known, AndroidMount(cfg, place));
      AppendKeeps(one, Mount(place.goldenRoot, GOLDEN_TARGET, false));
      AppendKeeps(two, Mount(place.configDir, CONFIG_TARGET, false));
      assert AndroidMount(cfg, place).target == ANDROID_TARGET by { AndroidTargetOf(cfg, place); }
    } else {
      AppendKeeps(known, Mount(place.configDir, CONFIG_TARGET, false));
    }
  }

  lemma AndroidTargetOf(cfg: Config, place: Place)
    ensures AndroidMount(cfg, place).target == ANDROID_TARGET
  {
  }

  // ---------------------------------------------------------------- what compatible guarantees

  /** Transports as validation accepts them, and no file with the name that stands
      for the default one. */
  predicate Regular(cfg: Config) {
    forall d :: d in cfg.devices ==>
      (d.kind.Physical? && d.kind.transport.Some? ==> d.kind.transport.value in {"usb", "wifi", "no_device"})
      && (d.kind.Redroid? && d.kind.ssh.Some? ==> Trim(d.kind.ssh.value.knownHosts) != DEFAULT_KNOWN_HOSTS)
  }

  lemma {:induction false} NeedsExactly(configured: bool, devices: seq<Device>)
    ensures var n := NeedsOf(configured, devices);
            && (n.hostADB <==> !configured || exists d :: d in devices && TransportOf(d) in {"usb", "wifi"})
            && (n.usb <==> exists d :: d in devices && TransportOf(d) == "usb")
            && (n.emulator <==> exists d :: d in devices && UsesEmulator(d))
  {
    hide TransportOf, KnownHostsOf, Insert;
    if devices != [] {
      var n := |devices| - 1;
      NeedsExactly(configured, devices[..n]);
      assert devices == devices[..n] + [devices[n]];
      assert forall d :: d in devices <==> d in devices[..n] || d == devices[n];
      assert UsesEmulator(devices[n]) <==> devices[n].enabled && devices[n].kind.Emulator?;
    }
  }

  lemma {:induction false} RegularTransport(d: Device)
    requires d.kind.Physical? && d.kind.transport.Some? ==> d.kind.transport.value in {"usb", "wifi", "no_device"}
    ensures UsesUSB(d) <==> TransportOf(d) == "usb"
    ensures UsesAndroid(d) <==> TransportOf(d) in {"usb", "wifi"}
  {
    TrimTrims("usb");
    TrimTrims("wifi");
    TrimTrims("no_device");
  }

  /** On accepted configurations the exported capabilities say exactly what the
      rendered service was given. */
  lemma {:induction false} NeedsAreRendered(cfg: Config, configured: bool)
    requires Regular(cfg)
    ensures var n := NeedsOf(configured, cfg.devices);
            && (n.hostADB <==> !configured || AnyDevice(cfg.devices, UsesAndroid))
            && (n.usb <==> AnyDevice(cfg.devices, UsesUSB)) && (n.emulator <==> AnyDevice(cfg.devices, UsesEmulator))
  {
    hide NeedsOf, UsesAndroid, UsesUSB, UsesEmulator, TransportOf;
    NeedsExactly(configured, cfg.devices);
    forall d | d in cfg.devices
      ensures (UsesUSB(d) <==> TransportOf(d) == "usb") && (UsesAndroid(d) <==> TransportOf(d) in {"usb", "wifi"})
    {
      RegularTransport(d);
    }
  }

  /** Files that the two configurations name alike are the same file on the host. */
  lemma {:induction false} SameKeySamePath(a: Device, d: Device, home: string)
    requires KnownHostsOf(a) == KnownHostsOf(d) != ""
    requires forall x :: x in {a, d} && x.kind.Redroid? && x.kind.ssh.Some? ==>
        Trim(x.kind.ssh.value.knownHosts) != DEFAULT_KNOWN_HOSTS
    ensures PathOf(a, home) == PathOf(d, home)
  {
  }

  lemma PathHasKey(d: Device, home: string)
    requires PathOf(d, home) != ""
    ensures KnownHostsOf(d) != ""
  {
  }

  /** A compatible service already has every known-hosts file mounted. */
  lemma {:induction false} KnownHostsProvided(
      a: Config, d: Config, configured: bool, host: Host, place: Place, t: string)
    requires Regular(a) && Regular(d) && HostSaysCompatible(a, d, configured, host)
    requires HasTarget(MountsOf(d, host, place), t)
    ensures HasTarget(MountsOf(a, host, place), t)
  {
    hide NeedsOf, TopologyOf, HostSaysCompatible, Unknown, PathOf, MountsOf, HasTarget, KnownHostsOf, Ascending;
    MountTargets(a, host, place);
    MountTargets(d, host, place);
    if t != "" && exists x :: x in d.devices && PathOf(x, place.home) == t {
      var x :| x in d.devices && PathOf(x, place.home) == t;
      PathProvided(a, d, configured, host, place.home, x);
    }
  }

  lemma {:induction false} PathProvided(a: Config, d: Config, configured: bool, host: Host, home: string, x: Device)
    requires Regular(a) && Regular(d) && HostSaysCompatible(a, d, configured, host)
    requires x in d.devices && PathOf(x, home) != ""
    ensures exists y :: y in a.devices && PathOf(y, home) == PathOf(x, home)
  {
    hide NeedsOf, TopologyOf, HostSaysCompatible, Unknown, PathOf, KnownHostsOf, Ascending;
    PathHasKey(x, home);
    CompatibleExactly(a, d, configured, host);
    KnownHostsAscend(configured, a.devices);
    KnownHostsAscend(configured, d.devices);
    assert KnownHostsOf(x) in NeedsOf(configured, d.devices).knownHosts;
    var y :| y in a.devices && KnownHostsOf(y) == KnownHostsOf(x);
    SameKeySamePath(y, x, home);
  }

  // ---------------------------------------------------------------- what is mounted there

  /** Only the keys of the configuration are mounted at the Android directory. */
  predicate KeysOnly(cfg: Config) { !AnyDevice(cfg.devices, UsesEmulator) && AnyDevice(cfg.devices, UsesAndroid) }

  /** Compatible configurations have the same Android mount exactly if they have no keys of
      their own, or both or neither get only those. */
  lemma {:induction false} AndroidSourceExactly(a: Config, d: Config, configured: bool, host: Host, place: Place)
    requires HostSaysCompatible(a, d, configured, host)
    ensures AndroidMount(a, place) == AndroidMount(d, place) <==>
        d.settings.adbKeysPath == "" || (KeysOnly(a) <==> KeysOnly(d))
  {
    hide NeedsOf, HostSaysCompatible, Unknown, AnyDevice, ModeFor, UsesAndroid, UsesEmulator;
    CompatibleExactly(a, d, configured, host);
    assert a.settings == d.settings;
  }

  /** No known-hosts file is named like one of the fixed directories of the service. */
  predicate PathsApart(cfg: Config, home: string) {
    forall d :: d in cfg.devices ==> PathOf(d, home) !in {ANDROID_TARGET, GOLDEN_TARGET, CONFIG_TARGET}
  }

  predicate FileMount(m: Mount) { m == Mount(m.target, m.target, true) }

  lemma {:induction false} KnownHostsAreFiles(devices: seq<Device>, home: string)
    ensures forall m :: m in KnownHostsMounts(devices, home) ==> FileMount(m)
  {
    hide PathOf, HasTarget;
    if devices != [] { KnownHostsAreFiles(devices[..|devices| - 1], home); }
  }

  ghost predicate FixedMount(m: Mount, cfg: Config, host: Host, place: Place) {
    || m == Mount(place.configDir, CONFIG_TARGET, false)
    || (host.linux && (m == AndroidMount(cfg, place) || m == Mount(place.goldenRoot, GOLDEN_TARGET, false)))
  }

  /** The known-hosts files at their own places, and the fixed directories. */
  lemma {:induction false} MountContents(cfg: Config, host: Host, place: Place)
    requires PathsApart(cfg, place.home)
    ensures forall m :: m in MountsOf(cfg, host, place) <==>
              m in KnownHostsMounts(cfg.devices, place.home) || FixedMount(m, cfg, host, place)
    ensures forall m :: m in KnownHostsMounts(cfg.devices, place.home) <==>
              FileMount(m) && m.target != "" && exists d :: d in cfg.devices && PathOf(d, place.home) == m.target
  {
    hide PathOf, DistinctTargets, AndroidMount;
    var known := KnownHostsMounts(cfg.devices, place.home);
    KnownHostsTargets(cfg.devices, place.home);
    KnownHostsAreFiles(cfg.devices, place.home);
    AndroidTargetOf(cfg, place);
    assert !HasTarget(known, ANDROID_TARGET) && !HasTarget(known, GOLDEN_TARGET) && !HasTarget(known, CONFIG_TARGET);
    assert ANDROID_TARGET != GOLDEN_TARGET && ANDROID_TARGET != CONFIG_TARGET
           && GOLDEN_TARGET != CONFIG_TARGET by { FixedApart(); }
    var golden, config := Mount(place.goldenRoot, GOLDEN_TARGET, false), Mount(place.configDir, CONFIG_TARGET, false);
    if host.linux {
      var one := known + [AndroidMount(cfg, place)];
      NotThere(known, AndroidMount(cfg, place), GOLDEN_TARGET);
      NotThere(known, AndroidMount(cfg, place), CONFIG_TARGET);
      NotThere(one, golden, CONFIG_TARGET);
      assert MountsOf(cfg, host, place) == known + [AndroidMount(cfg, place)] + [golden] + [config];
    } else {
      assert MountsOf(cfg, host, place) == known + [config];
    }
    forall m | FileMount(m) && HasTarget(known, m.target)
      ensures m in known { var k :| k in known && k.target == m.target; }
    forall m | m in known ensures HasTarget(known, m.target) { }
  }

  lemma {:induction false} FixedApart()
    ensures ANDROID_TARGET != GOLDEN_TARGET && ANDROID_TARGET != CONFIG_TARGET && GOLDEN_TARGET != CONFIG_TARGET
  {
    assert ANDROID_TARGET[1] == 'r' && GOLDEN_TARGET[1] == 'a' && CONFIG_TARGET[1] == 'e';
  }

  lemma NotThere(mounts: seq<Mount>, m: Mount, target: string)
    requires !HasTarget(mounts, target) && m.target != target
    ensures !HasTarget(mounts + [m], target)
  {
  }

  /** Every mount of the desired service is one of the applied one, source and access
      included, exactly if the Android mount is the same. */
  lemma {:induction false} MountsProvidedExactly(a: Config, d: Config, configured: bool, host: Host, place: Place)
    requires Regular(a) && Regular(d) && HostSaysCompatible(a, d, configured, host) && PathsApart(a, place.home)
    ensures (forall m :: m in MountsOf(d, host, place) ==> m in MountsOf(a, host, place))
            <==> !host.linux || AndroidMount(a, place) == AndroidMount(d, place)
  {
    hide Regular, HostSaysCompatible, PathOf, MountsOf, AndroidMount, KnownHostsMounts;
    forall x | x in d.devices && PathOf(x, place.home) != ""
      ensures exists y :: y in a.devices && PathOf(y, place.home) == PathOf(x, place.home)
    {
      PathProvided(a, d, configured, host, place.home, x);
    }
    MountContents(a, host, place);
    MountContents(d, host, place);
    AndroidTargetOf(a, place);
    AndroidTargetOf(d, place);
    FixedApart();
    if host.linux { assert FixedMount(AndroidMount(d, place), d, host, place); }
  }

  /** An applied service that is compatible with a configuration has the image, the
      networks, the volumes and the published ports of a service rendered for it, and
      at least its devices, its access to ADB and its mount points. */
  lemma {:induction false} CompatibleServiceProvides(a: Config, d: Config, host: Host, place: Place)
    requires Regular(a) && Regular(d) && HostSaysCompatible(a, d, !host.beforeSetup, host)
    requires Build(a, host, place).Some? && Build(d, host, place).Some?
    ensures var x, y := Build(a, host, place).value, Build(d, host, place).value;
            && x.frame == y.frame && (y.usb ==> x.usb) && (y.kvm ==> x.kvm) && (y.hostADB ==> x.hostADB)
            && (forall t :: HasTarget(y.mounts, t) ==> HasTarget(x.mounts, t))
            && (PathsApart(a, place.home) ==>
                  ((forall m :: m in y.mounts ==> m in x.mounts)
                   <==> !host.linux || d.settings.adbKeysPath == "" || (KeysOnly(a) <==> KeysOnly(d))))
  {
    hide NeedsOf, TopologyOf, HostSaysCompatible, Unknown, MountsOf, Regular, AnyDevice, Renderable, FrameOf;
    hide PathsApart, AndroidMount, KeysOnly;
    var configured := !host.beforeSetup;
    CompatibleExactly(a, d, configured, host);
    NeedsAreRendered(a, configured);
    NeedsAreRendered(d, configured);
    SameFrame(a, d, configured, host);
    forall t | HasTarget(MountsOf(d, host, place), t) ensures HasTarget(MountsOf(a, host, place), t) {
      KnownHostsProvided(a, d, configured, host, place, t);
    }
    AndroidSourceExactly(a, d, configured, host, place);
    if PathsApart(a, place.home) { MountsProvidedExactly(a, d, configured, host, place); }
  }

  lemma {:induction false} SameFrame(a: Config, d: Config, configured: bool, host: Host)
    requires TopologyOf(a, configured, host) == TopologyOf(d, configured, host)
    ensures FrameOf(a, host) == FrameOf(d, host)
  {
    hide ModeFor, EqualFold, Trim;
  }

  /** The exception is real: both services can be rendered, and without its last emulator a
      service with keys of its own would get only those, and read-only. */
  lemma {:induction false} AndroidSourceMayDiffer() returns (a: Config, d: Config, host: Host, place: Place)
    ensures Regular(a) && Regular(d) && host.linux && HostSaysCompatible(a, d, true, host)
    ensures Build(a, host, place).Some? && Build(d, host, place).Some?
    ensures exists m :: m in Build(d, host, place).value.mounts && m !in Build(a, host, place).value.mounts
  {
    hide HostSaysCompatible, NeedsOf, TopologyOf, Unknown, MountsOf, FrameOf;
    var settings := Settings("", "", "", "", "", "", "", "", "/keys");
    var phone, emulator := Device(true, Physical(Some("wifi"))), Device(true, Emulator(true));
    a := Config(settings, Listen("", ""), "", "", None, Name("", None), false, None, [phone, emulator]);
    d := a.(devices := [phone]);
    host := Host(true, false, {}, Some(map[]));
    place := Place("/home", "/home/.android", "/golden", "/config", true, {});
    assert UsesEmulator(emulator) && emulator in a.devices && UsesAndroid(phone) && phone in d.devices;
    assert !AnyDevice(d.devices, UsesEmulator);
    NeedsFor(phone, emulator);
    SameTopology(a, d, host);
    CompatibleExactly(a, d, true, host);
    assert PathOf(phone, "/home") == "" && PathOf(emulator, "/home") == "";
    MountsProvidedExactly(a, d, true, host, place);
  }

  lemma {:induction false} NeedsFor(phone: Device, emulator: Device)
    requires phone == Device(true, Physical(Some("wifi"))) && emulator == Device(true, Emulator(true))
    ensures NeedsOf(true, [phone]) == Needs(true, false, false, [])
    ensures NeedsOf(true, [phone, emulator]) == Needs(true, false, true, [])
  {
    TrimTrims("wifi");
    assert [phone, emulator][..1] == [phone] && [phone][..0] == [];
  }

  lemma {:induction false} SameTopology(a: Config, d: Config, host: Host)
    requires a.devices == [Device(true, Physical(Some("wifi"))), Device(true, Emulator(true))]
    requires d == a.(devices := [a.devices[0]])
    requires !host.beforeSetup && d.credimi.None? && d.temporal.text == "" && !d.manual
    ensures TopologyOf(a, true, host) == TopologyOf(d, true, host) && !Unknown(d, host)
  {
    TrimTrims("wifi");
    assert TransportOf(a.devices[0]) == "wifi" && TransportOf(a.devices[1]) == "";
    assert Lower("wifi")[0] == 'w' && Lower("usb")[0] == 'u' && |Lower("")| == 0;
    assert !WantsUSB(a) && !WantsUSB(d);
  }
}
