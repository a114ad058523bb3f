/** What a printed configuration holds at each key, and what is read back from one
    device block. */
module ConfigBlocks {
  import opened Wrappers
  import opened Text
  import opened Numbers
  import opened ConfigSpec

  // ---------------------------------------------------------------- one device among others

  predicate At(k: Key, i: nat) { k.Dev? && k.index == i }

  ghost predicate NoneAt(v: Values, i: nat) { forall k :: k in v ==> !At(k, i) }

  /** The two maps agree outside block i. */
  ghost predicate SameOutside(v: Values, w: Values, i: nat) {
    forall k :: !At(k, i) ==> (k in v <==> k in w) && (k in v ==> v[k] == w[k])
  }

  /** Only settings with a name that is allowed are written. */
  ghost predicate ListedAt(v: Values, i: nat) { forall k :: k in v && At(k, i) ==> !k.suffix.Unlisted? }

  lemma {:induction false} PutPhysicalStays(v: Values, i: nat, k: Kind)
    requires k.Physical?
    ensures SameOutside(v, PutPhysical(v, i, k), i) && (ListedAt(v, i) ==> ListedAt(PutPhysical(v, i, k), i))
  {
    hide WiFiSerial;
  }

  lemma PutSystemStays(v: Values, i: nat, e: Emulator)
    ensures SameOutside(v, PutSystem(v, i, e), i) && (ListedAt(v, i) ==> ListedAt(PutSystem(v, i, e), i))
  {
  }

  lemma {:induction false} PutSizesStays(v: Values, i: nat, e: Emulator)
    ensures SameOutside(v, PutSizes(v, i, e), i) && (ListedAt(v, i) ==> ListedAt(PutSizes(v, i, e), i))
  {
    hide ShowInt, ShowBool;
  }

  lemma {:induction false} PutContainerStays(v: Values, i: nat, r: Redroid)
    ensures SameOutside(v, PutContainer(v, i, r), i) && (ListedAt(v, i) ==> ListedAt(PutContainer(v, i, r), i))
  {
    hide ShowInt, WiFiSerial;
  }

  lemma {:induction false} PutSSHStays(p: Platform, v: Values, i: nat, r: Redroid)
    ensures SameOutside(v, PutSSH(p, v, i, r), i) && (ListedAt(v, i) ==> ListedAt(PutSSH(p, v, i, r), i))
  {
    hide ShowBool, EffectiveKnownHosts, SSHArgs;
  }

  lemma {:induction false} PutKindStays(p: Platform, v: Values, i: nat, k: Kind)
    ensures SameOutside(v, PutKind(p, v, i, k), i) && (ListedAt(v, i) ==> ListedAt(PutKind(p, v, i, k), i))
  {
    hide PutPhysical, PutSystem, PutSizes, PutContainer, PutSSH;
    match k
    case Physical(_, _, _, _) => PutPhysicalStays(v, i, k);
    case AVD(e) =>
      PutSystemStays(v, i, e);
      PutSizesStays(PutSystem(v, i, e), i, e);
    case RedroidOf(r) =>
      PutContainerStays(v, i, r);
      PutSSHStays(p, PutContainer(v, i, r), i, r);
    case Simulator(_) =>
  }

  lemma SameOutsideTwice(u: Values, v: Values, w: Values, i: nat)
    requires SameOutside(u, v, i) && SameOutside(v, w, i)
    ensures SameOutside(u, w, i)
  {
  }

  lemma {:induction false} CommonStays(v: Values, w: Values, i: nat, d: Device)
    requires w == v[Dev(i, ID) := d.id][Dev(i, NAME) := d.name][Dev(i, DESCRIPTION) := d.description]
                   [Dev(i, TYPE) := TypeName(d.kind)][Dev(i, ENABLED) := ShowBool(d.enabled)]
    ensures SameOutside(v, w, i) && (ListedAt(v, i) ==> ListedAt(w, i))
  {
    hide ShowBool, TypeName;
  }

  lemma {:induction false} PutDeviceStays(p: Platform, v: Values, i: nat, d: Device)
    ensures SameOutside(v, PutDevice(p, v, i, d), i) && (ListedAt(v, i) ==> ListedAt(PutDevice(p, v, i, d), i))
  {
    hide PutKind, ShowBool, TypeName, SameOutside, ListedAt;
    var w := v[Dev(i, ID) := d.id][Dev(i, NAME) := d.name][Dev(i, DESCRIPTION) := d.description]
              [Dev(i, TYPE) := TypeName(d.kind)][Dev(i, ENABLED) := ShowBool(d.enabled)];
    CommonStays(v, w, i, d);
    PutKindStays(p, w, i, d.kind);
    SameOutsideTwice(v, w, PutKind(p, w, i, d.kind), i);
  }

  /** No device keys but those of the devices, and nothing else changes. */
  lemma {:induction false} PutDevicesKeys(p: Platform, v: Values, devices: seq<Device>)
    requires forall k: Key :: k in v ==> !k.Dev?
    ensures forall k: Key :: !k.Dev? ==>
        (k in PutDevices(p, v, devices) <==> k in v) && (k in v ==> PutDevices(p, v, devices)[k] == v[k])
    ensures forall k :: k in PutDevices(p, v, devices) && k.Dev? ==> 1 <= k.index <= |devices| && !k.suffix.Unlisted?
  {
    hide PutDevice;
    if devices != [] {
      var u := PutDevices(p, v, devices[..|devices| - 1]);
      PutDevicesKeys(p, v, devices[..|devices| - 1]);
      PutDeviceStays(p, u, |devices|, devices[|devices| - 1]);
      assert ListedAt(u, |devices|);
    }
  }

  lemma {:induction false} SameBlock(v: Values, w: Values, i: nat, j: nat)
    requires SameOutside(v, w, j) && i != j
    ensures BlockOf(v, i) == BlockOf(w, i)
  {
    forall s ensures Dev(i, s) in v <==> Dev(i, s) in w { assert !At(Dev(i, s), j); }
    forall s | Dev(i, s) in v ensures v[Dev(i, s)] == w[Dev(i, s)] { assert !At(Dev(i, s), j); }
    BlockKeys(v, i);
    BlockKeys(w, i);
  }

  lemma {:induction false} BlockKeys(v: Values, i: nat)
    ensures forall s :: s in BlockOf(v, i) <==> Dev(i, s) in v
    ensures forall s :: s in BlockOf(v, i) ==> BlockOf(v, i)[s] == Trim(v[Dev(i, s)])
  {
    hide Trim;
    forall s | Dev(i, s) in v
      ensures s in BlockOf(v, i) { var k := Dev(i, s); assert k in v && k.Dev? && k.index == i; }
  }

  /** The block of a device is what printing it alone would give. */
  lemma {:induction false} BlockOfDevice(p: Platform, v: Values, devices: seq<Device>, i: nat)
    requires (forall k: Key :: k in v ==> !k.Dev?) && 1 <= i <= |devices|
    ensures exists u ::
              NoneAt(u, i) && BlockOf(PutDevices(p, v, devices), i) == BlockOf(PutDevice(p, u, i, devices[i - 1]), i)
  {
    hide PutDevice, BlockOf;
    var n := |devices|;
    var u := PutDevices(p, v, devices[..n - 1]);
    PutDevicesKeys(p, v, devices[..n - 1]);
    if i == n {
      assert NoneAt(u, i);
    } else {
      BlockOfDevice(p, v, devices[..n - 1], i);
      PutDeviceStays(p, u, n, devices[n - 1]);
      SameBlock(u, PutDevice(p, u, n, devices[n - 1]), i, n);
    }
  }

  // ---------------------------------------------------------------- what a block holds

  /** In block i of w this setting has this text. */
  predicate Holds(w: Values, i: nat, s: Suffix, text: string) { Dev(i, s) in w && w[Dev(i, s)] == text }

  ghost predicate HoldsCommon(w: Values, i: nat, d: Device) {
    && Holds(w, i, ID, d.id) && Holds(w, i, NAME, d.name) && Holds(w, i, DESCRIPTION, d.description)
    && Holds(w, i, TYPE, TypeName(d.kind)) && Holds(w, i, ENABLED, ShowBool(d.enabled))
  }

  ghost predicate HoldsPhysical(w: Values, i: nat, k: Kind) {
    && k.Physical? && Holds(w, i, MODE, k.transport)
    && (k.transport == "wifi" ==> Holds(w, i, WIFI_IP, k.wifiIP) && Holds(w, i, WIFI_PORT, k.wifiPort))
    && (k.transport == "usb" ==> Holds(w, i, SERIAL, k.serial))
  }

  ghost predicate HoldsSystem(w: Values, i: nat, e: Emulator) {
    && Holds(w, i, BASE_NAME, e.baseName) && Holds(w, i, GOLDEN_PATH, e.goldenSource) && Holds(w, i, MODE, "emulator")
    && Holds(w, i, ABI, e.abi) && Holds(w, i, SYSTEM_IMAGE, e.systemImage)
  }

  ghost predicate HoldsSizes(w: Values, i: nat, e: Emulator) {
    && Holds(w, i, API_LEVEL, ShowInt(e.apiLevel)) && Holds(w, i, HEADLESS, ShowBool(e.headless))
    && Holds(w, i, MEMORY_MB, ShowInt(e.memory)) && Holds(w, i, CORES, ShowInt(e.cores))
  }

  ghost predicate HoldsEmulator(w: Values, i: nat, e: Emulator) { HoldsSystem(w, i, e) && HoldsSizes(w, i, e) }

  ghost predicate HoldsContainer(w: Values, i: nat, r: Redroid) {
    && Holds(w, i, MODE, "redroid") && Holds(w, i, WIFI_IP, r.host) && Holds(w, i, WIFI_PORT, ShowInt(r.port))
    && Holds(w, i, REDROID_IMAGE, r.image) && Holds(w, i, REDROID_DATA_DIR, r.dataDir)
    && Holds(w, i, REDROID_DATA_TAR, r.dataArchive)
  }

  ghost predicate HoldsSSH(p: Platform, w: Values, i: nat, r: Redroid) {
    && Holds(w, i, SSH_TARGET, r.sshTarget) && Holds(w, i, SSH_PASSWORD, r.sshPassword)
    && Holds(w, i, SSH_KNOWN_HOSTS, EffectiveKnownHosts(p, r.sshTarget, r.knownHosts))
    && Holds(w, i, SUDO, ShowBool(r.sudo)) && Holds(w, i, SUDO_PASSWORD, r.sudoPassword)
  }

  ghost predicate HoldsRedroid(p: Platform, w: Values, i: nat, r: Redroid) {
    HoldsContainer(w, i, r) && HoldsSSH(p, w, i, r)
  }

  /** Settings that no printed device has, and those only a Redroid device has. */
  ghost predicate Lacks(w: Values, i: nat, redroid: bool) {
    && Dev(i, PORT) !in w && Dev(i, CONTAINER_NAME) !in w && Dev(i, WORK_DIR) !in w
    && (!redroid ==> Dev(i, SSH_KNOWN_HOSTS) !in w)
  }

  lemma {:induction false} PhysicalHolds(v: Values, i: nat, d: Device)
    requires d.kind.Physical? && HoldsCommon(v, i, d) && Lacks(v, i, false)
    ensures var w := PutPhysical(v, i, d.kind);
            HoldsCommon(w, i, d) && HoldsPhysical(w, i, d.kind) && Lacks(w, i, false)
  {
    hide WiFiSerial, ShowBool, TypeName;
  }

  lemma {:induction false} SystemHolds(v: Values, i: nat, d: Device)
    requires d.kind.AVD? && HoldsCommon(v, i, d) && Lacks(v, i, false)
    ensures var w := PutSystem(v, i, d.kind.emulator);
            HoldsCommon(w, i, d) && HoldsSystem(w, i, d.kind.emulator) && Lacks(w, i, false)
  {
    hide ShowBool, TypeName;
  }

  lemma {:induction false} SizesHold(v: Values, i: nat, d: Device)
    requires d.kind.AVD? && HoldsCommon(v, i, d) && HoldsSystem(v, i, d.kind.emulator) && Lacks(v, i, false)
    ensures var w := PutSizes(v, i, d.kind.emulator);
            HoldsCommon(w, i, d) && HoldsEmulator(w, i, d.kind.emulator) && Lacks(w, i, false)
  {
    hide ShowInt, ShowBool, TypeName;
  }

  lemma {:induction false} EmulatorHolds(v: Values, i: nat, d: Device)
    requires d.kind.AVD? && HoldsCommon(v, i, d) && Lacks(v, i, false)
    ensures var w := PutEmulator(v, i, d.kind.emulator);
            HoldsCommon(w, i, d) && HoldsEmulator(w, i, d.kind.emulator) && Lacks(w, i, false)
  {
    hide PutSystem, PutSizes, HoldsSystem, HoldsSizes, HoldsCommon;
    SystemHolds(v, i, d);
    SizesHold(PutSystem(v, i, d.kind.emulator), i, d);
  }

  lemma {:induction false} ContainerHolds(v: Values, i: nat, d: Device)
    requires d.kind.RedroidOf? && HoldsCommon(v, i, d) && Lacks(v, i, true)
    ensures var w := PutContainer(v, i, d.kind.redroid);
            HoldsCommon(w, i, d) && HoldsContainer(w, i, d.kind.redroid) && Lacks(w, i, true)
  {
    hide WiFiSerial, ShowInt, ShowBool, TypeName;
  }

  lemma {:induction false} SSHHolds(p: Platform, v: Values, i: nat, d: Device)
    requires d.kind.RedroidOf? && HoldsCommon(v, i, d) && HoldsContainer(v, i, d.kind.redroid) && Lacks(v, i, true)
    ensures var w := PutSSH(p, v, i, d.kind.redroid);
            HoldsCommon(w, i, d) && HoldsRedroid(p, w, i, d.kind.redroid) && Lacks(w, i, true)
  {
    hide PutSSH, HoldsSSH, EffectiveKnownHosts, ShowInt, ShowBool, TypeName;
    SSHWrites(p, v, i, d.kind.redroid);
  }

  lemma {:induction false} SSHWrites(p: Platform, v: Values, i: nat, r: Redroid)
    ensures var w := PutSSH(p, v, i, r);
            && HoldsSSH(p, w, i, r)
            && forall s :: s !in {SSH_TARGET, SSH_PASSWORD, SSH_KNOWN_HOSTS, SSH_ARGS, SUDO, SUDO_PASSWORD} ==>
                 (Dev(i, s) in w <==> Dev(i, s) in v) && (Dev(i, s) in v ==> w[Dev(i, s)] == v[Dev(i, s)])
  {
    hide EffectiveKnownHosts, SSHArgs, ShowBool;
  }

  lemma {:induction false} RedroidHolds(p: Platform, v: Values, i: nat, d: Device)
    requires d.kind.RedroidOf? && HoldsCommon(v, i, d) && Lacks(v, i, true)
    ensures var w := PutRedroid(p, v, i, d.kind.redroid);
            HoldsCommon(w, i, d) && HoldsRedroid(p, w, i, d.kind.redroid) && Lacks(w, i, true)
  {
    hide PutContainer, PutSSH, HoldsContainer, HoldsSSH, HoldsCommon;
    ContainerHolds(v, i, d);
    SSHHolds(p, PutContainer(v, i, d.kind.redroid), i, d);
  }

  lemma {:induction false} DeviceHolds(p: Platform, u: Values, i: nat, d: Device)
    requires NoneAt(u, i)
    ensures var w := PutDevice(p, u, i, d);
            && HoldsCommon(w, i, d) && Lacks(w, i, d.kind.RedroidOf?)
            && (d.kind.Physical? ==> HoldsPhysical(w, i, d.kind))
            && (d.kind.AVD? ==> HoldsEmulator(w, i, d.kind.emulator))
            && (d.kind.RedroidOf? ==> HoldsRedroid(p, w, i, d.kind.redroid))
            && (d.kind.Simulator? ==> Holds(w, i, MODE, "no_device") && Holds(w, i, IOS_UDID, d.kind.udid))
  {
    hide PutPhysical, PutEmulator, PutRedroid, ShowBool, TypeName, HoldsPhysical, HoldsEmulator, HoldsRedroid;
    var v := u[Dev(i, ID) := d.id][Dev(i, NAME) := d.name][Dev(i, DESCRIPTION) := d.description]
              [Dev(i, TYPE) := TypeName(d.kind)][Dev(i, ENABLED) := ShowBool(d.enabled)];
    assert HoldsCommon(v, i, d) && Lacks(v, i, false);
    match d.kind
    case Physical(_, _, _, _) => PhysicalHolds(v, i, d);
    case AVD(e) => EmulatorHolds(v, i, d);
    case RedroidOf(r) => RedroidHolds(p, v, i, d);
    case Simulator(udid) =>
  }

  lemma {:induction false} Reads(w: Values, i: nat, s: Suffix, text: string)
    requires Holds(w, i, s, text)
    ensures In(BlockOf(w, i), s) == Trim(text) && BlockOf(w, i) != map[]
  {
    BlockKeys(w, i);
  }

  // ---------------------------------------------------------------- host settings

  function CredimiText(c: Credimi, k: CredimiKey): string {
    match k case SURL => c.url case SAuthMode => c.authMode case SUserKey => c.userKey case SAdminKey => c.adminKey
  }

  function RunnerText(r: Runner, k: RunnerKey): string {
    match k
    case SRunnerID => r.id
    case SRunnerName => r.name
    case SOrganization => r.organization
    case SDescription => r.description
    case SPublished => ShowBool(r.published)
  }

  function ServerText(p: Platform, defaults: Values, s: Server, k: ServerKey): string {
    match k
    case SToken => s.token
    case SOpenBrowser => ShowBool(s.openBrowser)
    case SHeaderTimeout => p.showDuration(s.headerTimeout)
    case SShutdownTimeout => p.showDuration(s.shutdownTimeout)
    case SRunnerHost => ListenText(p.split(s.apiListen), true, H(defaults, KServer(k)))
    case SRunnerPort => ListenText(p.split(s.apiListen), false, H(defaults, KServer(k)))
    case SDashboardHost => ListenText(p.split(s.dashboardListen), true, H(defaults, KServer(k)))
    case SDashboardPort => ListenText(p.split(s.dashboardListen), false, H(defaults, KServer(k)))
  }

  function StorageText(p: Platform, s: Storage, k: StorageKey): string {
    match k case STempDir => s.tempDir case SStateDir => s.stateDir case SRetention => p.showDuration(s.retention)
  }

  function ObservabilityText(o: Observability, k: ObservabilityKey): string {
    match k case SOtelEnabled => ShowBool(o.enabled) case SOtelEndpoint => o.endpoint case SOtelService => o.service
  }

  function AndroidText(a: Android, k: AndroidKey): string {
    match k
    case SImage => a.image
    case SPullPolicy => a.pullPolicy
    case SNetwork => a.network
    case SStateVolume => a.stateVolume
    case SToolVolume => a.toolVolume
    case SSDKVolume => a.sdkVolume
    case SADBKeys => a.adbKeys
    case SRecordSize => a.recordSize
  }

  function ExposureText(e: Exposure, k: ExposureKey): string {
    match k
    case SMode => ShowMode(e.mode)
    case SPublicURL => e.publicURL
    case SPublicPort => e.publicPort
    case SDomain => e.domain
    case SCloudflare => e.cloudflareToken
  }

  /** The text that a printed configuration has at a host setting. */
  function HostText(p: Platform, defaults: Values, cfg: Config, h: HostKey): string {
    match h
    case KOther(_) => H(defaults, h)
    case KSchema => ShowInt(cfg.schema)
    case KCredimi(k) => CredimiText(cfg.credimi, k)
    case KRunner(k) => RunnerText(cfg.runner, k)
    case KTemporal => cfg.temporal
    case KServer(k) => ServerText(p, defaults, cfg.server, k)
    case KStorage(k) => StorageText(p, cfg.storage, k)
    case KObservability(k) => ObservabilityText(cfg.observability, k)
    case KAndroid(k) => AndroidText(cfg.android, k)
    case KExposure(k) => ExposureText(cfg.exposure, k)
  }

  function ListenText(split: Option<HostPort>, host: bool, fallback: string): string {
    match split case Some(hp) => (if host then hp.host else hp.port) case None => fallback
  }

  /** The place of a setting's section in the order in which they are printed. */
  function Section(h: HostKey): nat {
    match h
    case KOther(_) => 0
    case KSchema => 1
    case KCredimi(_) => 2
    case KRunner(_) => 3
    case KTemporal => 4
    case KServer(_) => 5
    case KStorage(_) => 6
    case KObservability(_) => 7
    case KAndroid(_) => 8
    case KExposure(_) => 9
  }

  /** The settings of the first sections are as printed, the others as by default. */
  ghost predicate Printed(p: Platform, defaults: Values, cfg: Config, v: Values, sections: nat) {
    && (forall h: HostKey ::
         H(v, h) == if Section(h) <= sections then HostText(p, defaults, cfg, h) else H(defaults, h))
    && (forall k :: k in v ==> k.Host?)
  }

  lemma {:induction false} PutCredimiPrints(p: Platform, defaults: Values, cfg: Config)
    requires forall k :: k in defaults ==> k.Host?
    ensures Printed(p, defaults, cfg, PutCredimi(defaults[Host(KSchema) := ShowInt(cfg.schema)], cfg.credimi), 2)
  {
    hide ShowInt, ShowBool, ShowMode;
  }

  lemma {:induction false} PutRunnerPrints(p: Platform, defaults: Values, cfg: Config, v: Values)
    requires Printed(p, defaults, cfg, v, 2)
    ensures Printed(p, defaults, cfg, PutRunner(v, cfg.runner)[Host(KTemporal) := cfg.temporal], 4)
  {
    hide ShowInt, ShowBool, ShowMode;
  }

  lemma {:induction false} PutServerPrints(p: Platform, defaults: Values, cfg: Config, v: Values)
    requires Printed(p, defaults, cfg, v, 4)
    ensures Printed(p, defaults, cfg, PutServer(p, v, cfg.server), 5)
  {
    hide PutServer, ServerText, CredimiText, RunnerText, StorageText, ObservabilityText, AndroidText, ExposureText;
    hide ShowInt;
    PutServerStays(p, v, cfg.server);
    forall k: ServerKey ensures H(PutServer(p, v, cfg.server), KServer(k)) == ServerText(p, defaults, cfg.server, k) {
      assert H(v, KServer(k)) == H(defaults, KServer(k));
      PutServerTexts(p, defaults, v, cfg.server, k);
    }
  }

  lemma {:induction false} PutServerStays(p: Platform, v: Values, s: Server)
    requires forall k :: k in v ==> k.Host?
    ensures forall h: HostKey :: !h.KServer? ==> H(PutServer(p, v, s), h) == H(v, h)
    ensures forall k :: k in PutServer(p, v, s) ==> k.Host?
  {
    hide ShowBool;
  }

  lemma {:induction false} PutServerTexts(p: Platform, defaults: Values, v: Values, s: Server, k: ServerKey)
    requires H(v, KServer(k)) == H(defaults, KServer(k))
    ensures H(PutServer(p, v, s), KServer(k)) == ServerText(p, defaults, s, k)
  {
    hide ShowBool;
  }

  lemma {:induction false} PutStoragePrints(p: Platform, defaults: Values, cfg: Config, v: Values)
    requires Printed(p, defaults, cfg, v, 5)
    ensures Printed(p, defaults, cfg, PutStorage(p, v, cfg.storage), 6)
  {
    hide ShowInt, ShowBool, ShowMode;
  }

  lemma {:induction false} PutObservabilityPrints(p: Platform, defaults: Values, cfg: Config, v: Values)
    requires Printed(p, defaults, cfg, v, 6)
    ensures Printed(p, defaults, cfg, PutObservability(v, cfg.observability), 7)
  {
    hide ShowInt, ShowBool, ShowMode;
  }

  lemma {:induction false} PutAndroidPrints(p: Platform, defaults: Values, cfg: Config, v: Values)
    requires Printed(p, defaults, cfg, v, 7)
    ensures Printed(p, defaults, cfg, PutAndroid(v, cfg.android), 8)
  {
    hide ShowInt, ShowBool, ShowMode;
  }

  lemma {:induction false} PutExposurePrints(p: Platform, defaults: Values, cfg: Config, v: Values)
    requires Printed(p, defaults, cfg, v, 8)
    ensures Printed(p, defaults, cfg, PutExposure(v, cfg.exposure), 9)
  {
    hide ShowInt, ShowBool, ShowMode;
  }

  lemma {:induction false} HostPrinted(p: Platform, defaults: Values, cfg: Config)
    requires forall k :: k in defaults ==> k.Host?
    ensures Printed(p, defaults, cfg, PutHost(p, defaults, cfg), 9)
  {
    hide Printed, PutCredimi, PutRunner, PutServer, PutStorage, PutObservability, PutAndroid, PutExposure;
    var a := PutCredimi(defaults[Host(KSchema) := ShowInt(cfg.schema)], cfg.credimi);
    PutCredimiPrints(p, defaults, cfg);
    PutRunnerPrints(p, defaults, cfg, a);
    var b := PutServer(p, PutRunner(a, cfg.runner)[Host(KTemporal) := cfg.temporal], cfg.server);
    PutServerPrints(p, defaults, cfg, PutRunner(a, cfg.runner)[Host(KTemporal) := cfg.temporal]);
    PutStoragePrints(p, defaults, cfg, b);
    var c := PutObservability(PutStorage(p, b, cfg.storage), cfg.observability);
    PutObservabilityPrints(p, defaults, cfg, PutStorage(p, b, cfg.storage));
    PutAndroidPrints(p, defaults, cfg, c);
    PutExposurePrints(p, defaults, cfg, PutAndroid(c, cfg.android));
  }

  /** Every host setting of a printed configuration. */
  lemma {:induction false} HostTextOf(p: Platform, defaults: Values, cfg: Config, h: HostKey)
    requires forall k :: k in defaults ==> k.Host?
    ensures H(ValuesFromTyped(p, defaults, cfg), h) == HostText(p, defaults, cfg, h)
    ensures Get(ValuesFromTyped(p, defaults, cfg), Count) == ShowNat(|cfg.devices|)
  {
    hide PutHost, HostText, PutDevices, ShowNat;
    var v := PutHost(p, defaults, cfg);
    HostPrinted(p, defaults, cfg);
    PutDevicesKeys(p, v[Count := ShowNat(|cfg.devices|)], cfg.devices);
    assert Section(h) <= 9;
  }
}
