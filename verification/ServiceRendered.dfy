/** The rendered service, spelled out in the configuration: what it is given, where it is
    published, what is mounted, and when it is refused. */
module ServiceRendered {
  import opened Wrappers
  import opened Text
  import opened ServiceCompat
  import opened ServiceRender
  import opened ServiceMeaning

  function Default(s: string, fallback: string): string { if Trim(s) == "" then fallback else s }

  predicate SpellsBridge(s: string) {
    |s| == 6 && s[0] in "bB" && s[1] in "rR" && s[2] in "iI" && s[3] in "dD" && s[4] in "gG" && s[5] in "eE"
  }

  lemma BridgeExactly(s: string)
    ensures EqualFold(s, "bridge") <==> SpellsBridge(s)
  {
    var l := Lower(s);
    assert Lower("bridge") == "bridge";
    if EqualFold(s, "bridge") {
      assert l[0] == 'b' && l[1] == 'r' && l[2] == 'i' && l[3] == 'd' && l[4] == 'g' && l[5] == 'e';
    }
    if SpellsBridge(s) {
      assert l[0] == 'b' && l[1] == 'r' && l[2] == 'i' && l[3] == 'd' && l[4] == 'g' && l[5] == 'e';
      assert l == "bridge";
    }
  }

  /** Published: the dashboard where it binds, and the API for everybody or for this machine only. */
  predicate Published(cfg: Config, host: Host, p: Port) {
    && !OnHostNetwork(cfg, host)
    && ((cfg.dashboardPort != "" && p == Port(cfg.dashboardBind.host, cfg.dashboardPort))
        || (cfg.apiPort != "" && cfg.apiPort != "0"
            && p == Port(if cfg.manual then "0.0.0.0" else "127.0.0.1", cfg.apiPort)))
  }

  lemma {:induction false} FrameExactly(cfg: Config, host: Host)
    ensures var f := FrameOf(cfg, host); var s := cfg.settings;
            && f.image == Default(s.runnerImage, "ghcr.io/forkbombeu/credimi-runner:latest")
            && f.pullPolicy == (if s.pullPolicy == "if-not-present" then "missing"
                                else Default(s.pullPolicy, "missing"))
            && f.networks == (if Trim(s.network) == "" || SpellsHost(Trim(s.network)) || SpellsBridge(Trim(s.network))
                              then []
                              else [Trim(s.network)])
            && (f.mode == HostNetwork <==> OnHostNetwork(cfg, host))
            && f.volumes == [Default(s.stateVolume, "credimi-runner-state"),
                             Default(s.toolCacheVolume, "credimi-runner-tools"),
                             Default(s.sdkVolume, "credimi-runner-sdk")]
            && (forall p :: p in f.ports <==> Published(cfg, host, p))
            && (forall i, j :: 0 <= i < j < |f.ports| ==> f.ports[i] != f.ports[j])
  {
    hide Trim, EqualFold, ModeFor, OnHostNetwork, SpellsHost, SpellsBridge;
    FoldsExactly(Trim(cfg.settings.network));
    BridgeExactly(Trim(cfg.settings.network));
    ModeExactly(cfg, host);
  }

  // ---------------------------------------------------------------- devices

  /** The file of known hosts on this machine. */
  predicate NeedsPath(d: Device, home: string, path: string) {
    && d.enabled && d.kind.Redroid? && d.kind.ssh.Some? && path != ""
    && (if Trim(d.kind.ssh.value.knownHosts) != "" then path == Trim(d.kind.ssh.value.knownHosts)
        else Trim(d.kind.ssh.value.target) != "" && path == home + "/.ssh/known_hosts")
  }

  lemma PathExactly(d: Device, home: string, path: string)
    ensures path != "" && PathOf(d, home) == path <==> NeedsPath(d, home, path)
  {
    hide Trim;
  }

  /** An enabled device that can be served: of a known type, with its section, and its file there. */
  ghost predicate Servable(d: Device, place: Place) {
    d.enabled ==>
      match d.kind
      case Physical(_) => true
      case Emulator(configured) => configured
      case Redroid(ssh) => ssh.Some? && forall path :: NeedsPath(d, place.home, path) ==> path in place.available
      case Other => false
  }

  lemma {:induction false} ServableExactly(d: Device, place: Place)
    ensures Renderable(d, place) <==> Servable(d, place)
  {
    hide Trim, PathOf, NeedsPath;
    PathExactly(d, place.home, PathOf(d, place.home));
    forall path ensures path != "" && PathOf(d, place.home) == path <==> NeedsPath(d, place.home, path) {
      PathExactly(d, place.home, path);
    }
    if !d.kind.Redroid? { assert PathOf(d, place.home) == "" by { OnlyRedroid(d, place.home); } }
  }

  lemma OnlyRedroid(d: Device, home: string)
    ensures !d.enabled || !d.kind.Redroid? ==> PathOf(d, home) == ""
  {
  }

  predicate Attached(d: Device) {
    d.enabled && d.kind.Physical? && d.kind.transport.Some? && d.kind.transport.value != "no_device"
  }

  predicate OverUSB(d: Device) { d.enabled && d.kind.Physical? && d.kind.transport == Some("usb") }
  predicate Emulated(d: Device) { d.enabled && d.kind.Emulator? }

  // ---------------------------------------------------------------- mounts

  ghost predicate FileAt(cfg: Config, home: string,
                         path: string) { exists d :: d in cfg.devices && NeedsPath(d, home, path) }

  /** The directory of the Android tools: the keys alone and read-only if there are some, a phone needs
      them and no emulator needs the whole directory. */
  ghost predicate AndroidAt(cfg: Config, place: Place, m: Mount) {
    if cfg.settings.adbKeysPath != "" && (exists d :: d in cfg.devices && Attached(d))
       && !exists d :: d in cfg.devices && Emulated(d)
    then m == Mount(cfg.settings.adbKeysPath, "/root/.android", true)
    else m == Mount(place.androidDir, "/root/.android", false)
  }

  /** A file lies at its own path; it takes the place of a directory of the same name. */
  ghost predicate Mounted(cfg: Config, host: Host, place: Place, m: Mount) {
    || (m == Mount(m.target, m.target, true) && FileAt(cfg, place.home, m.target))
    || (!FileAt(cfg, place.home, m.target)
        && (m == Mount(place.configDir, "/etc/credimi-runner", false)
            || (host.linux && (AndroidAt(cfg, place, m) || m == Mount(place.goldenRoot, "/avd-golden", false)))))
  }

  lemma Appended(mounts: seq<Mount>, m: Mount)
    ensures forall x :: x in AppendMount(mounts, m) <==> x in mounts || (x == m && !HasTarget(mounts, m.target))
  {
  }

  lemma {:induction false} FilesMounted(devices: seq<Device>, home: string)
    ensures forall m :: m in KnownHostsMounts(devices, home) <==>
              m == Mount(m.target, m.target, true) && exists d :: d in devices && NeedsPath(d, home, m.target)
    ensures forall t :: HasTarget(KnownHostsMounts(devices, home), t)
                <==> exists d :: d in devices && NeedsPath(d, home, t)
  {
    hide PathOf, NeedsPath, DistinctTargets, HasTarget, KnownHostsMounts;
    var known := KnownHostsMounts(devices, home);
    KnownHostsTargets(devices, home);
    KnownHostsAreFiles(devices, home);
    forall d, t ensures t != "" && PathOf(d, home) == t <==> NeedsPath(d, home, t) { PathExactly(d, home, t); }
    forall m: Mount ensures m in known <==> m == Mount(m.target, m.target, true) && HasTarget(known, m.target) {
      FileThere(known, m);
    }
  }

  lemma FileThere(mounts: seq<Mount>, m: Mount)
    requires forall x :: x in mounts ==> FileMount(x)
    ensures m in mounts <==> m == Mount(m.target, m.target, true) && HasTarget(mounts, m.target)
  {
  }

  lemma {:induction false} AndroidExactly(cfg: Config, place: Place, m: Mount)
    ensures m == AndroidMount(cfg, place) <==> AndroidAt(cfg, place, m)
  {
    assert forall d :: UsesAndroid(d) <==> Attached(d);
    assert forall d :: UsesEmulator(d) <==> Emulated(d);
    assert ANDROID_TARGET == "/root/.android";
  }

  lemma {:induction false} MountsExactly(cfg: Config, host: Host, place: Place, m: Mount)
    ensures m in MountsOf(cfg, host, place) <==> Mounted(cfg, host, place, m)
  {
    hide PathOf, NeedsPath, AndroidMount, AndroidAt, KnownHostsMounts, AppendMount;
    var known := KnownHostsMounts(cfg.devices, place.home);
    var golden, config := Mount(place.goldenRoot, GOLDEN_TARGET, false), Mount(place.configDir, CONFIG_TARGET, false);
    var android := AndroidMount(cfg, place);
    FilesMounted(cfg.devices, place.home);
    AndroidExactly(cfg, place, m);
    AndroidTargetOf(cfg, place);
    FixedApart();
    Appended(known, android);
    Appended(AppendMount(known, android), golden);
    Appended(AppendMount(AppendMount(known, android), golden), config);
    Appended(known, config);
    AppendKeeps(known, android);
    AppendKeeps(AppendMount(known, android), golden);
  }

  /** The rendered service: refused exactly without a home directory or with a device that cannot be
      served; otherwise it gets USB, KVM and the ADB socket as its devices need them. */
  lemma {:induction false} RenderedExactly(cfg: Config, host: Host, place: Place)
    ensures Build(cfg, host, place).Some? <==> place.home != "" && forall d :: d in cfg.devices ==> Servable(d, place)
    ensures Build(cfg, host, place).Some? ==>
        var s := Build(cfg, host, place).value;
        && s.frame == FrameOf(cfg, host) && (forall m :: m in s.mounts <==> Mounted(cfg, host, place, m))
        && (s.usb <==> host.linux && exists d :: d in cfg.devices && OverUSB(d))
        && (s.kvm <==> host.linux && place.kvm && exists d :: d in cfg.devices && Emulated(d))
        && (s.hostADB <==> host.beforeSetup || exists d :: d in cfg.devices && Attached(d))
  {
    hide FrameOf, MountsOf, Renderable, Servable, Mounted;
    forall d ensures Renderable(d, place) <==> Servable(d, place) { ServableExactly(d, place); }
    forall m ensures m in MountsOf(cfg, host, place)
        <==> Mounted(cfg, host, place, m) { MountsExactly(cfg, host, place, m); }
    assert forall d :: UsesAndroid(d) <==> Attached(d);
    assert forall d :: UsesUSB(d) <==> OverUSB(d);
    assert forall d :: UsesEmulator(d) <==> Emulated(d);
  }
}
