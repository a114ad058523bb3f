/** What an arbitrary flat map of settings is read as, also where settings are missing: every
    field of the typed configuration, and every reason to refuse the map. */
module ConfigReading {
  import opened Wrappers
  import opened Text
  import opened Numbers
  import opened ConfigSpec
  import opened InventoryReading

  // ---------------------------------------------------------------- one device

  /** The text of a setting, or this one if it is blank. */
  function SaidOr(v: Values, i: nat, s: Suffix, fallback: string): string {
    if Said(v, i, s) == "" then fallback else Said(v, i, s)
  }

  /** The number is the one given, or the fallback if none above zero is. */
  ghost predicate Sized(v: Values, i: nat, s: Suffix, fallback: Int, n: Int) {
    var given := ReadInt(Said(v, i, s));
    if given.Some? && given.value >= 1 then n == given.value else n == fallback
  }

  /** A flag that is blank or true or false. */
  predicate IsFlag(text: string) { text == "" || True(text) || False(text) }

  ghost predicate PhoneRead(v: Values, i: nat, k: Kind) {
    && k.Physical? && k.transport == Said(v, i, MODE)
    && k.serial == (if Said(v, i, MODE) == "usb" then Said(v, i, SERIAL) else "")
    && k.wifiIP == (if Said(v, i, MODE) == "wifi" then Said(v, i, WIFI_IP) else "")
    && k.wifiPort == (if Said(v, i, MODE) == "wifi" then SaidOr(v, i, WIFI_PORT, "5555") else "")
  }

  ghost predicate EmulatorRead(p: Platform, v: Values, i: nat, k: Kind) {
    && k.AVD? && Sized(v, i, API_LEVEL, 35, k.emulator.apiLevel) && k.emulator.abi == SaidOr(v, i, ABI, p.abi)
    && k.emulator.systemImage == SaidOr(v, i, SYSTEM_IMAGE, "system-images;android-35;google_apis;" + k.emulator.abi)
    && k.emulator.baseName == SaidOr(v, i, BASE_NAME, "credimi")
    && k.emulator.goldenSource == SaidOr(v, i, GOLDEN_PATH, "/avd-golden/" + k.emulator.baseName + "-golden")
    && (k.emulator.headless <==> True(Said(v, i, HEADLESS)))
    && Sized(v, i, MEMORY_MB, 2048, k.emulator.memory) && Sized(v, i, CORES, 2, k.emulator.cores)
  }

  /** The path to the known hosts: the machine's for an SSH target that names none. */
  function PathSaid(p: Platform, v: Values, i: nat): string {
    if Said(v, i, SSH_KNOWN_HOSTS) == "" && Said(v, i, SSH_TARGET) != "" then p.knownHosts
         else Said(v, i, SSH_KNOWN_HOSTS)
  }

  ghost predicate RedroidRead(p: Platform, v: Values, i: nat, k: Kind) {
    && k.RedroidOf? && k.redroid.host == Said(v, i, WIFI_IP)
    && (if Said(v, i, WIFI_PORT) == "" then k.redroid.port == 5555
        else ReadInt(Said(v, i, WIFI_PORT)) == Some(k.redroid.port))
    && k.redroid.image == SaidOr(v, i, REDROID_IMAGE, "redroid:latest")
    && k.redroid.dataDir == SaidOr(v, i, REDROID_DATA_DIR, "/home/credimi/redroid-data")
    && k.redroid.dataArchive == SaidOr(v, i, REDROID_DATA_TAR, "/home/credimi/redroid-data.tar")
    && k.redroid.sshTarget == Said(v, i, SSH_TARGET) && k.redroid.sshPassword == Said(v, i, SSH_PASSWORD)
    && k.redroid.knownHosts == PathSaid(p, v, i)
    && (k.redroid.sudo <==> True(Said(v, i, SUDO))) && k.redroid.sudoPassword == Said(v, i, SUDO_PASSWORD)
  }

  /** What the typed device is, by the type that its settings name. */
  ghost predicate IsTyped(p: Platform, v: Values, i: nat, d: Device) {
    && d.id == SaidID(v, i) && d.name == Said(v, i, NAME) && d.description == Said(v, i, DESCRIPTION)
    && (d.enabled <==> Said(v, i, ENABLED) == "" || True(Said(v, i, ENABLED)))
    && match Said(v, i, TYPE)
       case "android_phone" => PhoneRead(v, i, d.kind)
       case "android_emulator" => EmulatorRead(p, v, i, d.kind)
       case "redroid" => RedroidRead(p, v, i, d.kind)
       case "ios_simulator" => d.kind == Simulator(Said(v, i, IOS_UDID))
       case _ => false
  }

  predicate PortAccepted(text: string) {
    text == "" || (ReadInt(text).Some? && 1 <= ReadInt(text).value <= 65535)
  }

  /** Whether the settings of a device that was read make a typed one. */
  ghost predicate Typable(p: Platform, v: Values, i: nat) {
    match Said(v, i, TYPE)
    case "android_phone" => true
    case "android_emulator" => IsFlag(Said(v, i, HEADLESS))
    case "redroid" =>
      && PortAccepted(Said(v, i, WIFI_PORT)) && IsFlag(Said(v, i, SUDO))
      && forall k :: 0 <= k < |PathSaid(p, v, i)| ==> !Space(PathSaid(p, v, i)[k])
    case "ios_simulator" => true
    case _ => false
  }

  lemma {:induction false} PhoneTyped(v: Values, i: nat, t: Target)
    requires IsRead(v, i, t) && t.typ == "android_phone"
    ensures PhoneRead(v, i, TypedPhysical(t))
  {
    hide Trim, Said, SaidID;
    assert In(t.values, WIFI_IP) == Kept(v, i, WIFI_IP) && In(t.values, WIFI_PORT) == Kept(v, i, WIFI_PORT);
  }

  predicate Plain(s: Suffix) { s !in {ID, AVD_NAME, SERIAL, WIFI_IP, WIFI_PORT} }

  /** What else a device keeps of its settings. */
  lemma {:induction false} Says(v: Values, i: nat, t: Target, s: Suffix)
    requires IsRead(v, i, t) && Plain(s)
    ensures In(t.values, s) == Said(v, i, s) && Trim(In(t.values, s)) == In(t.values, s)
  {
    hide Said, SaidID, SerialSaid, Trim;
    BlockSays(v, i, s);
    assert In(t.values, s) == Kept(v, i, s);
  }

  lemma {:induction false} TextRead(v: Values, i: nat, t: Target, s: Suffix, fallback: string)
    requires IsRead(v, i, t) && Plain(s)
    ensures DefaultIfEmpty(In(t.values, s), fallback) == SaidOr(v, i, s, fallback)
  {
    hide Said, IsRead, Trim, Plain;
    Says(v, i, t, s);
  }

  lemma {:induction false} SizeRead(v: Values, i: nat, t: Target, s: Suffix, fallback: Int)
    requires IsRead(v, i, t) && Plain(s)
    ensures Sized(v, i, s, fallback, PositiveOr(In(t.values, s), fallback))
  {
    hide Said, IsRead, Trim, Plain, ReadInt;
    Says(v, i, t, s);
  }

  lemma {:induction false} FlagRead(v: Values, i: nat, t: Target, s: Suffix)
    requires IsRead(v, i, t) && Plain(s)
    ensures var r := ReadFlag(In(t.values, s), false);
            (r.Some? <==> IsFlag(Said(v, i, s))) && (r.Some? ==> (r.value <==> True(Said(v, i, s))))
  {
    hide Said, IsRead, Trim, Plain;
    Says(v, i, t, s);
  }

  lemma {:induction false} EmulatorTyped(p: Platform, v: Values, i: nat, t: Target)
    requires IsRead(v, i, t) && t.typ == "android_emulator"
    ensures TypedEmulator(p, t.values).Some? <==> IsFlag(Said(v, i, HEADLESS))
    ensures TypedEmulator(p, t.values).Some? ==> EmulatorRead(p, v, i, TypedEmulator(p, t.values).value)
  {
    hide Said, IsRead, DefaultIfEmpty, SaidOr, Sized, ReadFlag, PositiveOr, True, IsFlag, In;
    FlagRead(v, i, t, HEADLESS);
    var r := TypedEmulator(p, t.values);
    if r.Some? {
      var e := r.value.emulator;
      TextRead(v, i, t, ABI, p.abi);
      TextRead(v, i, t, SYSTEM_IMAGE, "system-images;android-35;google_apis;" + e.abi);
      TextRead(v, i, t, BASE_NAME, "credimi");
      TextRead(v, i, t, GOLDEN_PATH, "/avd-golden/" + e.baseName + "-golden");
      SizeRead(v, i, t, API_LEVEL, 35);
      SizeRead(v, i, t, MEMORY_MB, 2048);
      SizeRead(v, i, t, CORES, 2);
    }
  }

  /** Where a Redroid device is reached. */
  lemma {:induction false} RedroidReached(v: Values, i: nat, t: Target)
    requires IsRead(v, i, t) && t.typ == "redroid"
    ensures (if t.wifiIP == "" then In(t.values, WIFI_IP) else t.wifiIP) == Said(v, i, WIFI_IP)
    ensures t.wifiPort != "" && t.wifiPort == SaidOr(v, i, WIFI_PORT, "5555")
  {
    hide Trim, Said, SaidID, SerialSaid;
    assert In(t.values, WIFI_IP) == Kept(v, i, WIFI_IP);
  }

  lemma {:induction false} PortRead(v: Values, i: nat)
    ensures var r := ReadPort(SaidOr(v, i, WIFI_PORT, "5555"));
            && (r.Some? <==> PortAccepted(Said(v, i, WIFI_PORT)))
            && (r.Some? ==> if Said(v, i, WIFI_PORT) == "" then r.value == 5555
                else ReadInt(Said(v, i, WIFI_PORT)) == r)
  {
    hide Trim, Said, ReadInt;
    BlockSays(v, i, WIFI_PORT);
    FallbackPort();
  }

  lemma {:induction false} PathRead(p: Platform, v: Values, i: nat, t: Target)
    requires IsRead(v, i, t)
    ensures EffectiveKnownHosts(p, In(t.values, SSH_TARGET), In(t.values, SSH_KNOWN_HOSTS)) == PathSaid(p, v, i)
  {
    hide Trim, Said, IsRead;
    Says(v, i, t, SSH_TARGET);
    Says(v, i, t, SSH_KNOWN_HOSTS);
  }

  lemma {:induction false} RedroidTyped(p: Platform, v: Values, i: nat, t: Target)
    requires IsRead(v, i, t) && t.typ == "redroid" && Said(v, i, TYPE) == "redroid"
    ensures TypedRedroid(p, t).Some? <==> Typable(p, v, i)
    ensures TypedRedroid(p, t).Some? ==> RedroidRead(p, v, i, TypedRedroid(p, t).value)
  {
    hide Said, IsRead, DefaultIfEmpty, SaidOr, ReadFlag, ReadPort, ReadInt, True, IsFlag, PortAccepted, In, PathSaid;
    hide EffectiveKnownHosts;
    FlagRead(v, i, t, SUDO);
    RedroidReached(v, i, t);
    PortRead(v, i);
    PathRead(p, v, i, t);
    TextRead(v, i, t, REDROID_IMAGE, "redroid:latest");
    TextRead(v, i, t, REDROID_DATA_DIR, "/home/credimi/redroid-data");
    TextRead(v, i, t, REDROID_DATA_TAR, "/home/credimi/redroid-data.tar");
    Says(v, i, t, SSH_TARGET);
    Says(v, i, t, SSH_PASSWORD);
    Says(v, i, t, SUDO_PASSWORD);
  }

  lemma {:induction false} FallbackPort()
    ensures ReadPort("5555") == Some(5555)
  {
    hide Trim, ReadInt;
    TrimTrims("5555");
    NumberRoundTrip(5555);
    assert ShowNat(5) == "5" && ShowNat(55) == "55" && ShowNat(555) == "555" && ShowNat(5555) == "5555";
  }

  lemma {:induction false} DeviceTyped(p: Platform, v: Values, i: nat, t: Target)
    requires IsRead(v, i, t)
    ensures TypedDevice(p, t).Some? <==> Typable(p, v, i)
    ensures TypedDevice(p, t).Some? ==> IsTyped(p, v, i, TypedDevice(p, t).value)
  {
    hide Trim, Said, SaidID, SerialSaid, TypedEmulator, TypedRedroid, TypedPhysical, PhoneRead, EmulatorRead;
    hide RedroidRead;
    if t.typ == "android_phone" { PhoneTyped(v, i, t); }
    if t.typ == "android_emulator" { EmulatorTyped(p, v, i, t); }
    if t.typ == "redroid" { RedroidTyped(p, v, i, t); }
    if t.typ == "ios_simulator" { assert In(t.values, IOS_UDID) == Kept(v, i, IOS_UDID) == Said(v, i, IOS_UDID); }
  }

  lemma {:induction false} AllTyped(p: Platform, v: Values, ts: seq<Target>)
    requires forall i :: 0 <= i < |ts| ==> IsRead(v, i + 1, ts[i])
    ensures TypedDevices(p, ts).Some? <==> forall i :: 1 <= i <= |ts| ==> Typable(p, v, i)
    ensures TypedDevices(p, ts).Some? ==> forall i :: 0 <= i < |ts| ==>
                IsTyped(p, v, i + 1, TypedDevices(p, ts).value[i])
  {
    hide TypedDevice, IsRead, Typable, IsTyped;
    if ts != [] {
      var n := |ts| - 1;
      AllTyped(p, v, ts[..n]);
      DeviceTyped(p, v, n + 1, ts[n]);
    }
  }

  /** Without a count, or with the count zero, there are no devices; otherwise the inventory must be
      accepted and every device make a typed one, which its settings say field by field. */
  lemma {:induction false} DevicesExactly(p: Platform, v: Values)
    ensures var r := ReadDevices(p, v); var none := Trim(Get(v, Count)) in {"", "0"}; var inv := ReadInventory(v);
            && (none ==> r == Some([]))
            && (!none ==> (r.Some? <==> inv.Some? && forall i :: 1 <= i <= |inv.value.targets| ==> Typable(p, v, i)))
            && (!none && r.Some? ==>
                 |r.value| == |inv.value.targets| && forall i :: 0 <= i < |r.value| ==>
                     IsTyped(p, v, i + 1, r.value[i]))
  {
    hide ReadInventory, Typable, IsTyped, IsRead, Trim, TypedDevices;
    if ReadInventory(v).Some? {
      FieldByField(v);
      AllTyped(p, v, ReadInventory(v).value.targets);
    }
  }

  // ---------------------------------------------------------------- host settings

  /** The trimmed text of a host setting. */
  function Told(v: Values, h: HostKey): string { Trim(Get(v, Host(h))) }

  function Raw(v: Values, h: HostKey): string { Get(v, Host(h)) }

  function RawOr(v: Values, h: HostKey, fallback: string): string { if Raw(v, h) == "" then fallback else Raw(v, h) }

  ghost predicate Address(v: Values, host: HostKey, port: HostKey, listen: string) {
    listen == if ':' in Raw(v, host) then "[" + Raw(v, host) + "]:" + Raw(v, port)
      else Raw(v, host) + ":" + Raw(v, port)
  }

  /** A duration in seconds by default, also where zero was given. */
  ghost predicate Lasts(p: Platform, v: Values, h: HostKey, seconds: int, d: int) {
    var given := p.readDuration(Told(v, h));
    if Told(v, h) != "" && given.Some? && given.value != 0 then d == given.value else d == seconds * 1_000_000_000
  }

  predicate IsTime(p: Platform, text: string) { text == "" || p.readDuration(text).Some? }

  ghost predicate RunnerIs(v: Values, r: Runner) {
    && r.id == Raw(v, KRunner(SRunnerID)) && r.name == Raw(v, KRunner(SRunnerName))
    && r.organization == Raw(v, KRunner(SOrganization)) && r.description == Raw(v, KRunner(SDescription))
    && (r.published <==> True(Told(v, KRunner(SPublished))))
  }

  /** Without a recorded mode the presence of an admin key decides. */
  ghost predicate CredimiIs(v: Values, c: Credimi) {
    && c.url == Raw(v, KCredimi(SURL)) && c.userKey == Raw(v, KCredimi(SUserKey))
       && c.adminKey == Raw(v, KCredimi(SAdminKey))
    && c.authMode == (if Told(v, KCredimi(SAuthMode)) != "" then Told(v, KCredimi(SAuthMode))
                      else if Raw(v, KCredimi(SAdminKey)) == "" then "user" else "internal_admin")
  }

  ghost predicate ServerIs(p: Platform, v: Values, s: Server) {
    && Address(v, KServer(SRunnerHost), KServer(SRunnerPort), s.apiListen)
    && Address(v, KServer(SDashboardHost), KServer(SDashboardPort), s.dashboardListen)
    && (s.openBrowser <==> Told(v, KServer(SOpenBrowser)) == "" || True(Told(v, KServer(SOpenBrowser))))
    && s.token == Raw(v, KServer(SToken))
    && Lasts(p, v, KServer(SHeaderTimeout), 60, s.headerTimeout)
    && Lasts(p, v, KServer(SShutdownTimeout), 30, s.shutdownTimeout)
  }

  ghost predicate StorageIs(p: Platform, v: Values, s: Storage) {
    && (if Raw(v, KStorage(SStateDir)) == "" then p.stateDir == Some(s.stateDir)
        else s.stateDir == Raw(v, KStorage(SStateDir)))
    && s.tempDir == RawOr(v, KStorage(STempDir), p.under(s.stateDir))
    && Lasts(p, v, KStorage(SRetention), 7 * 24 * 3600, s.retention)
  }

  ghost predicate ObservabilityIs(v: Values, o: Observability) {
    && (o.enabled <==> True(Told(v, KObservability(SOtelEnabled))))
    && o.service == Raw(v, KObservability(SOtelService)) && o.endpoint == Raw(v, KObservability(SOtelEndpoint))
  }

  ghost predicate AndroidIs(v: Values, a: Android) {
    && a.image == RawOr(v, KAndroid(SImage), "ghcr.io/forkbombeu/credimi-runner:latest")
    && a.pullPolicy == RawOr(v, KAndroid(SPullPolicy), "if-not-present")
    && a.network == RawOr(v, KAndroid(SNetwork), "credimi-runner")
    && a.stateVolume == RawOr(v, KAndroid(SStateVolume), "credimi-runner-state")
    && a.toolVolume == RawOr(v, KAndroid(SToolVolume), "credimi-runner-tools")
    && a.sdkVolume == RawOr(v, KAndroid(SSDKVolume), "credimi-runner-sdk")
    && a.adbKeys == Raw(v, KAndroid(SADBKeys)) && a.recordSize == Raw(v, KAndroid(SRecordSize))
  }

  ghost predicate ExposureIs(v: Values, e: Exposure) {
    && (e.mode == "manual" <==> Raw(v, KExposure(SMode)) == "manual")
    && (e.mode == "named_tunnel" <==> Raw(v, KExposure(SMode)) == "cloudflare-managed")
    && e.mode in {"manual", "named_tunnel", "quick_tunnel"}
    && e.publicURL == Raw(v, KExposure(SPublicURL)) && e.publicPort == Raw(v, KExposure(SPublicPort))
    && e.domain == Raw(v, KExposure(SDomain)) && e.cloudflareToken == Raw(v, KExposure(SCloudflare))
  }

  ghost predicate SchemaIs(v: Values, n: Int) {
    if Told(v, KSchema) == "" then n == 1 else ReadInt(Told(v, KSchema)) == Some(n)
  }

  /** Every field of the configuration that a map of settings is read as. */
  ghost predicate ConfigIs(p: Platform, v: Values, cfg: Config) {
    && SchemaIs(v, cfg.schema) && RunnerIs(v, cfg.runner) && CredimiIs(v, cfg.credimi)
       && cfg.temporal == Raw(v, KTemporal)
    && ServerIs(p, v, cfg.server) && ExposureIs(v, cfg.exposure) && ObservabilityIs(v, cfg.observability)
    && StorageIs(p, v, cfg.storage) && AndroidIs(v, cfg.android) && ReadDevices(p, v) == Some(cfg.devices)
  }

  /** What must be well formed. */
  ghost predicate HostReads(p: Platform, v: Values) {
    && (Told(v, KSchema) == "" || ReadInt(Told(v, KSchema)).Some?)
    && IsFlag(Told(v, KRunner(SPublished))) && IsFlag(Told(v, KServer(SOpenBrowser)))
    && IsFlag(Told(v, KObservability(SOtelEnabled)))
    && IsTime(p, Told(v, KServer(SHeaderTimeout))) && IsTime(p, Told(v, KServer(SShutdownTimeout)))
    && IsTime(p, Told(v, KStorage(SRetention)))
    && (Raw(v, KStorage(SStateDir)) == "" ==> p.stateDir.Some?)
  }

  lemma {:induction false} ServerRead(p: Platform, v: Values)
    ensures ReadServer(p, v).Some?
            <==> IsFlag(Told(v, KServer(SOpenBrowser))) && IsTime(p, Told(v, KServer(SHeaderTimeout)))
                 && IsTime(p, Told(v, KServer(SShutdownTimeout)))
    ensures ReadServer(p, v).Some? ==> ServerIs(p, v, DefaultServer(ReadServer(p, v).value))
  {
    hide Trim;
  }

  lemma {:induction false} StorageRead(p: Platform, v: Values)
    ensures ReadStorage(p, v).Some? <==> IsTime(p, Told(v, KStorage(SRetention)))
    ensures ReadStorage(p, v).Some? ==>
        var s := DefaultStorage(p, ReadStorage(p, v).value);
        (s.Some? <==> Raw(v, KStorage(SStateDir)) != "" || p.stateDir.Some?) && (s.Some? ==> StorageIs(p, v, s.value))
  {
    hide Trim;
  }

  lemma {:induction false} FlagsRead(v: Values)
    ensures ReadRunner(v).Some? <==> IsFlag(Told(v, KRunner(SPublished)))
    ensures ReadRunner(v).Some? ==> RunnerIs(v, ReadRunner(v).value)
    ensures ReadObservability(v).Some? <==> IsFlag(Told(v, KObservability(SOtelEnabled)))
    ensures ReadObservability(v).Some? ==> ObservabilityIs(v, ReadObservability(v).value)
  {
    hide Trim;
  }

  lemma {:induction false} TextsRead(v: Values)
    ensures CredimiIs(v, ReadCredimi(v)) && AndroidIs(v, DefaultAndroid(ReadAndroid(v)))
    ensures ExposureIs(v, ReadExposure(v)) && ReadExposure(v).mode != ""
    ensures ReadSchema(v).Some? <==> Told(v, KSchema) == "" || ReadInt(Told(v, KSchema)).Some?
    ensures ReadSchema(v).Some? ==> SchemaIs(v, ReadSchema(v).value)
  {
    hide Trim, ReadInt;
  }

  /** For every map of settings: it is read exactly if these are well formed and the devices can be
      read, and then as the configuration that the settings say. */
  lemma {:induction false} ReadExactly(p: Platform, v: Values)
    ensures TypedFromValues(p, v).Some? <==> HostReads(p, v) && ReadDevices(p, v).Some?
    ensures TypedFromValues(p, v).Some? ==> ConfigIs(p, v, TypedFromValues(p, v).value)
  {
    hide Told, Raw, ReadInt, ReadDevices, ReadRunner, ReadServer, ReadStorage, ReadObservability, ReadCredimi;
    hide ReadAndroid, ReadExposure, ReadSchema, RunnerIs, CredimiIs, ServerIs, StorageIs, ObservabilityIs, AndroidIs;
    hide ExposureIs, SchemaIs;
    hide DefaultServer, DefaultAndroid, DefaultStorage, IsFlag, IsTime;
    ServerRead(p, v);
    StorageRead(p, v);
    FlagsRead(v);
    TextsRead(v);
    assert Raw(v, KTemporal) == H(v, KTemporal) by { TemporalRead(v); }
  }

  lemma TemporalRead(v: Values)
    ensures Raw(v, KTemporal) == H(v, KTemporal)
  {
  }
}
