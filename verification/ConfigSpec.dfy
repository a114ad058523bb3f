/** The two representations of a configuration: a typed record, and a flat map from
    setting to text in which devices are numbered blocks.  Keys are taken apart
    already: a host setting, a setting of one device, or a malformed key. */
module ConfigSpec {
  import opened Wrappers
  import opened Text
  import opened Numbers

  // ---------------------------------------------------------------- typed

  datatype Runner = Runner(id: string, name: string, organization: string, description: string, published: bool)
  datatype Credimi = Credimi(url: string, authMode: string, userKey: string, adminKey: string)
  datatype Server = Server(apiListen: string, dashboardListen: string, openBrowser: bool, token: string,
                           headerTimeout: int, shutdownTimeout: int)
  datatype Exposure = Exposure(mode: string, publicURL: string, publicPort: string, domain: string,
                               cloudflareToken: string)
  datatype Observability = Observability(enabled: bool, service: string, endpoint: string)
  datatype Storage = Storage(stateDir: string, tempDir: string, retention: int)
  datatype Android = Android(image: string, pullPolicy: string, network: string, stateVolume: string,
                             toolVolume: string,
                             sdkVolume: string, adbKeys: string, recordSize: string)

  datatype Redroid = Redroid(host: string, image: string, dataDir: string, dataArchive: string, port: Int,
                             sshTarget: string,
                             sshPassword: string, knownHosts: string, sudo: bool, sudoPassword: string)
  datatype Emulator = Emulator(apiLevel: Int, abi: string, systemImage: string, baseName: string, goldenSource: string,
                               headless: bool, memory: Int, cores: Int)

  datatype Kind =
    | Physical(transport: string, serial: string, wifiIP: string, wifiPort: string)
    | AVD(emulator: Emulator)
    | RedroidOf(redroid: Redroid)
    | Simulator(udid: string)

  datatype Device = Device(id: string, name: string, description: string, enabled: bool, kind: Kind)

  /** No list is longer than a number of 64 bits. */
  type Devices = ds: seq<Device> | |ds| <= MAX_INT

  datatype Config = Config(schema: Int, runner: Runner, credimi: Credimi, temporal: string, server: Server,
                           exposure: Exposure,
                           observability: Observability, storage: Storage, android: Android, devices: Devices)

  // ---------------------------------------------------------------- flat

  /** Host settings by section. */
  datatype HostKey =
    | KOther(name: string) | KSchema | KCredimi(c: CredimiKey) | KRunner(r: RunnerKey) | KTemporal
    | KServer(s: ServerKey)
    | KStorage(t: StorageKey) | KObservability(o: ObservabilityKey) | KAndroid(a: AndroidKey)
    | KExposure(e: ExposureKey)

  datatype RunnerKey = SRunnerID | SRunnerName | SOrganization | SDescription | SPublished
  datatype CredimiKey = SURL | SAuthMode | SUserKey | SAdminKey
  datatype ServerKey =
    | SToken | SOpenBrowser | SHeaderTimeout | SShutdownTimeout
    | SRunnerHost | SRunnerPort | SDashboardHost | SDashboardPort
  datatype StorageKey = STempDir | SStateDir | SRetention
  datatype ObservabilityKey = SOtelEnabled | SOtelEndpoint | SOtelService
  datatype AndroidKey =
    | SImage | SPullPolicy | SNetwork | SStateVolume | SToolVolume | SSDKVolume | SADBKeys | SRecordSize
  datatype ExposureKey = SMode | SPublicURL | SPublicPort | SDomain | SCloudflare

  datatype Suffix =
    | ID | NAME | DESCRIPTION | TYPE | MODE | ENABLED | SERIAL | WIFI_IP | WIFI_PORT | BASE_NAME | GOLDEN_PATH
    | API_LEVEL | ABI | SYSTEM_IMAGE | HEADLESS | MEMORY_MB | CORES
    | REDROID_IMAGE | REDROID_DATA_DIR | REDROID_DATA_TAR
    | AVD_NAME | SSH_TARGET | SSH_PASSWORD | SSH_KNOWN_HOSTS | SSH_ARGS | SUDO | SUDO_PASSWORD
    | WORK_DIR | PORT | CONTAINER_NAME | IOS_UDID | Listed(name: string) | Unlisted(name: string)

  /** `BareID`: CREDIMI_DEVICE_ID without a number. */
  datatype Key = Host(h: HostKey) | Count | BareID | Dev(index: nat, suffix: Suffix) | Malformed(text: string)

  type Values = map<Key, string>

  function Get(v: Values, k: Key): string { if k in v then v[k] else "" }

  // ---------------------------------------------------------------- printing and parsing of parts

  datatype HostPort = HostPort(host: string, port: string)

  /** What the platform contributes: how durations are printed and read, how an address
      is split, and the defaults that depend on the machine. */
  datatype Platform = Platform(showDuration: int -> string, readDuration: string -> Option<int>,
                               split: string -> Option<HostPort>,
                               knownHosts: string, stateDir: Option<string>, under: string -> string, abi: string)

  /** Durations are read back as they were printed. */
  ghost predicate Faithful(p: Platform) {
    forall d :: p.readDuration(p.showDuration(d)) == Some(d) && Trimmed(p.showDuration(d)) && p.showDuration(d) != ""
  }

  /** An address with a colon in its host is bracketed. */
  function Join(host: string, port: string): string {
    if ':' in host then "[" + host + "]:" + port else host + ":" + port
  }

  const DEFAULT_PORT := "5555"

  function WiFiSerial(ip: string, port: string): string {
    var i, p := Trim(ip), Trim(port);
    if i == "" then "" else Join(i, if p == "" then DEFAULT_PORT else p)
  }

  lemma {:induction false} TrimmedSerial(ip: string, port: string)
    ensures WiFiSerial(Trim(ip), port) == WiFiSerial(ip, port)
  {
    TrimTwice(ip);
  }

  function DefaultIfEmpty(s: string, fallback: string): string { if Trim(s) == "" then fallback else Trim(s) }

  function EffectiveKnownHosts(p: Platform, target: string, path: string): string {
    if Trim(path) == "" && Trim(target) != "" then p.knownHosts else Trim(path)
  }

  function SSHArgs(path: string): string { if Trim(path) == "" then "" else "-o UserKnownHostsFile=" + Trim(path) }

  predicate HasSpace(s: string) { exists i :: 0 <= i < |s| && Space(s[i]) }

  function ReadFlag(raw: string, fallback: bool): Option<bool> {
    if Trim(raw) == "" then Some(fallback) else ReadBool(Trim(raw))
  }

  function ReadTime(p: Platform, raw: string, fallback: int): Option<int> {
    if Trim(raw) == "" then Some(fallback) else p.readDuration(Trim(raw))
  }

  /** A positive number, or the fallback. */
  function PositiveOr(raw: string, fallback: Int): Int {
    match ReadInt(Trim(raw)) case Some(n) => (if n > 0 then n else fallback) case None => fallback
  }

  function ReadPort(raw: string): Option<Int> {
    if Trim(raw) == "" then Some(5555)
    else match ReadInt(Trim(raw)) case Some(n) => (if 1 <= n <= 65535 then Some(n) else None) case None => None
  }

  /** A number as printed; the configurations considered here hold no negative ones. */
  function ShowInt(n: int): string { if n < 0 then "-" + ShowNat(-n) else ShowNat(n) }

  // ---------------------------------------------------------------- from typed to flat

  function PutRunner(v: Values, r: Runner): Values {
    v[Host(KRunner(SRunnerID)) := r.id][Host(KRunner(SRunnerName)) := r.name]
     [Host(KRunner(SOrganization)) := r.organization]
     [Host(KRunner(SDescription)) := r.description][Host(KRunner(SPublished)) := ShowBool(r.published)]
  }

  function PutCredimi(v: Values, c: Credimi): Values {
    v[Host(KCredimi(SURL)) := c.url][Host(KCredimi(SAuthMode)) := c.authMode]
     [Host(KCredimi(SUserKey)) := c.userKey][Host(KCredimi(SAdminKey)) := c.adminKey]
  }

  function PutListen(v: Values, hostKey: HostKey, portKey: HostKey, split: Option<HostPort>): Values {
    match split case Some(hp) => v[Host(hostKey) := hp.host][Host(portKey) := hp.port] case None => v
  }

  function PutServer(p: Platform, v: Values, s: Server): Values {
    var w := v[Host(KServer(SToken)) := s.token][Host(KServer(SOpenBrowser)) := ShowBool(s.openBrowser)]
              [Host(KServer(SHeaderTimeout)) := p.showDuration(s.headerTimeout)]
              [Host(KServer(SShutdownTimeout)) := p.showDuration(s.shutdownTimeout)];
    var api := PutListen(w, KServer(SRunnerHost), KServer(SRunnerPort), p.split(s.apiListen));
    PutListen(api, KServer(SDashboardHost), KServer(SDashboardPort), p.split(s.dashboardListen))
  }

  function PutStorage(p: Platform, v: Values, s: Storage): Values {
    v[Host(KStorage(STempDir)) := s.tempDir][Host(KStorage(SStateDir)) := s.stateDir]
     [Host(KStorage(SRetention)) := p.showDuration(s.retention)]
  }

  function PutObservability(v: Values, o: Observability): Values {
    v[Host(KObservability(SOtelEnabled)) := ShowBool(o.enabled)][Host(KObservability(SOtelEndpoint)) := o.endpoint]
     [Host(KObservability(SOtelService)) := o.service]
  }

  function PutAndroid(v: Values, a: Android): Values {
    v[Host(KAndroid(SImage)) := a.image][Host(KAndroid(SPullPolicy)) := a.pullPolicy]
     [Host(KAndroid(SNetwork)) := a.network][Host(KAndroid(SStateVolume)) := a.stateVolume]
     [Host(KAndroid(SToolVolume)) := a.toolVolume][Host(KAndroid(SSDKVolume)) := a.sdkVolume]
     [Host(KAndroid(SADBKeys)) := a.adbKeys][Host(KAndroid(SRecordSize)) := a.recordSize]
  }

  function ShowMode(mode: string): string {
    match mode case "named_tunnel" => "cloudflare-managed" case "manual" => "manual" case _ => "auto"
  }

  function ReadMode(text: string): string {
    match text case "cloudflare-managed" => "named_tunnel" case "manual" => "manual" case _ => "quick_tunnel"
  }

  function PutExposure(v: Values, e: Exposure): Values {
    v[Host(KExposure(SMode)) := ShowMode(e.mode)][Host(KExposure(SPublicURL)) := e.publicURL]
     [Host(KExposure(SPublicPort)) := e.publicPort]
     [Host(KExposure(SDomain)) := e.domain][Host(KExposure(SCloudflare)) := e.cloudflareToken]
  }

  function PutHost(p: Platform, defaults: Values, cfg: Config): Values {
    var a := PutCredimi(defaults[Host(KSchema) := ShowInt(cfg.schema)], cfg.credimi);
    var b := PutServer(p, PutRunner(a, cfg.runner)[Host(KTemporal) := cfg.temporal], cfg.server);
    var c := PutObservability(PutStorage(p, b, cfg.storage), cfg.observability);
    PutExposure(PutAndroid(c, cfg.android), cfg.exposure)
  }

  function TypeName(k: Kind): string {
    match k
    case Physical(_, _, _, _) => "android_phone"
    case AVD(_) => "android_emulator"
    case RedroidOf(_) => "redroid"
    case Simulator(_) => "ios_simulator"
  }

  function PutPhysical(v: Values, i: nat, k: Kind): Values
    requires k.Physical?
  {
    var w := v[Dev(i, MODE) := k.transport];
    match k.transport
    case "wifi" =>
      w[Dev(i, WIFI_IP) := k.wifiIP][Dev(i, WIFI_PORT) := k.wifiPort]
       [Dev(i, SERIAL) := WiFiSerial(k.wifiIP, k.wifiPort)]
    case "usb" => w[Dev(i, SERIAL) := k.serial]
    case _ => w
  }

  function PutSystem(v: Values, i: nat, e: Emulator): Values {
    v[Dev(i, MODE) := "emulator"][Dev(i, AVD_NAME) := e.baseName][Dev(i, BASE_NAME) := e.baseName]
     [Dev(i, GOLDEN_PATH) := e.goldenSource]
     [Dev(i, ABI) := e.abi][Dev(i, SYSTEM_IMAGE) := e.systemImage]
  }

  function PutSizes(v: Values, i: nat, e: Emulator): Values {
    v[Dev(i, API_LEVEL) := ShowInt(e.apiLevel)][Dev(i, HEADLESS) := ShowBool(e.headless)]
     [Dev(i, MEMORY_MB) := ShowInt(e.memory)][Dev(i, CORES) := ShowInt(e.cores)]
  }

  function PutEmulator(v: Values, i: nat, e: Emulator): Values { PutSizes(PutSystem(v, i, e), i, e) }

  function PutContainer(v: Values, i: nat, r: Redroid): Values {
    v[Dev(i, MODE) := "redroid"][Dev(i, WIFI_IP) := r.host][Dev(i, WIFI_PORT) := ShowInt(r.port)]
     [Dev(i, SERIAL) := WiFiSerial(r.host, ShowInt(r.port))][Dev(i, REDROID_IMAGE) := r.image]
     [Dev(i, REDROID_DATA_DIR) := r.dataDir][Dev(i, REDROID_DATA_TAR) := r.dataArchive]
  }

  function PutSSH(p: Platform, v: Values, i: nat, r: Redroid): Values {
    var path := EffectiveKnownHosts(p, r.sshTarget, r.knownHosts);
    v[Dev(i, SSH_TARGET) := r.sshTarget][Dev(i, SSH_PASSWORD) := r.sshPassword][Dev(i, SSH_KNOWN_HOSTS) := path]
     [Dev(i, SSH_ARGS) := SSHArgs(path)][Dev(i, SUDO) := ShowBool(r.sudo)][Dev(i, SUDO_PASSWORD) := r.sudoPassword]
  }

  function PutRedroid(p: Platform, v: Values, i: nat, r: Redroid): Values { PutSSH(p, PutContainer(v, i, r), i, r) }

  function PutKind(p: Platform, v: Values, i: nat, k: Kind): Values {
    match k
    case Physical(_, _, _, _) => PutPhysical(v, i, k)
    case AVD(e) => PutEmulator(v, i, e)
    case RedroidOf(r) => PutRedroid(p, v, i, r)
    case Simulator(udid) => v[Dev(i, MODE) := "no_device"][Dev(i, IOS_UDID) := udid]
  }

  function PutDevice(p: Platform, v: Values, i: nat, d: Device): Values {
    var w := v[Dev(i, ID) := d.id][Dev(i, NAME) := d.name][Dev(i, DESCRIPTION) := d.description]
              [Dev(i, TYPE) := TypeName(d.kind)][Dev(i, ENABLED) := ShowBool(d.enabled)];
    PutKind(p, w, i, d.kind)
  }

  /** Devices are numbered from 1. */
  function PutDevices(p: Platform, v: Values, devices: seq<Device>): Values {
    if devices == [] then v
    else PutDevice(p, PutDevices(p, v, devices[..|devices| - 1]), |devices|, devices[|devices| - 1])
  }

  function ValuesFromTyped(p: Platform, defaults: Values, cfg: Config): Values {
    PutDevices(p, PutHost(p, defaults, cfg)[Count := ShowNat(|cfg.devices|)], cfg.devices)
  }

  // ---------------------------------------------------------------- the inventory

  type Block = map<Suffix, string>

  function In(b: Block, s: Suffix): string { if s in b then b[s] else "" }

  datatype Target = Target(index: nat, id: string, name: string, description: string, typ: string, mode: string,
                           enabled: bool,
                           serial: string, wifiIP: string, wifiPort: string, values: Block)

  function CanonicalID(s: string): string {
    var t := Trim(s);
    if t != "" && t[0] == '/' then t[1..] else t
  }

  predicate KeyAllowed(k: Key, count: nat) {
    match k
    case Host(_) => true
    case Count => true
    case BareID => false
    case Dev(i, s) => 1 <= i <= count && !s.Unlisted?
    case Malformed(_) => false
  }

  function SuffixesOf(v: Values, i: nat): set<Suffix> { set k | k in v && k.Dev? && k.index == i :: k.suffix }

  function BlockOf(v: Values, i: nat): Block { map s | s in SuffixesOf(v, i) :: Trim(Get(v, Dev(i, s))) }

  /** The address of a target, which its type and mode decide. */
  datatype Address = Address(serial: string, ip: string, port: string)

  function AddressOf(b: Block): Address {
    var ip, port := Trim(In(b, WIFI_IP)), Trim(In(b, WIFI_PORT));
    var filled := if port == "" then DEFAULT_PORT else port;
    if In(b, TYPE) == "android_phone" && In(b, MODE) == "wifi" then Address(WiFiSerial(ip, filled), ip, filled)
    else if In(b, TYPE) == "android_phone" && In(b, MODE) == "no_device" then Address("", "", "")
    else if In(b, TYPE) == "redroid" then Address(WiFiSerial(ip, filled), ip, filled)
    else Address(Trim(In(b, SERIAL)), ip, port)
  }

  /** The block as it is kept: identity, AVD name and address in canonical form. */
  function Settle(b: Block, id: string): Block {
    var a := b[ID := id];
    var c := if In(a, TYPE) == "android_emulator" && Trim(In(a, BASE_NAME)) != ""
               then a[AVD_NAME := Trim(In(a, BASE_NAME))] else a;
    var addr := AddressOf(c);
    if In(c, TYPE) == "android_phone" && In(c, MODE) == "no_device" then c - {SERIAL, WIFI_IP, WIFI_PORT}
    else if (In(c, TYPE) == "android_phone" && In(c, MODE) == "wifi") || In(c, TYPE) == "redroid" then
      c[WIFI_PORT := addr.port][SERIAL := addr.serial]
    else c
  }

  function ReadTarget(runnerID: string, i: nat, b: Block): Option<Target> {
    var id := CanonicalID(In(b, ID));
    var path := Trim(In(b, SSH_KNOWN_HOSTS));
    if b == map[] || Trim(In(b, ID)) == "" || !(runnerID + "/" <= id) then None
    else if path != "" && HasSpace(path) then None
    else match ReadFlag(In(b, ENABLED), true)
      case None => None
      case Some(enabled) =>
        var a := AddressOf(b);
        Some(Target(i, id, In(b, NAME), In(b, DESCRIPTION), In(b, TYPE), In(b, MODE), enabled, a.serial, a.ip, a.port,
                    Settle(b, id)))
  }

  function ReadTargets(runnerID: string, v: Values, count: nat): (r: Option<seq<Target>>)
    ensures r.Some? ==> |r.value| == count
  {
    if count == 0 then Some([])
    else match ReadTargets(runnerID, v, count - 1)
      case None => None
      case Some(before) =>
        match ReadTarget(runnerID, count, BlockOf(v, count))
        case None => None
        case Some(t) => Some(before + [t])
  }

  predicate HasSerial(t: Target) { t.serial != "" && (t.typ == "android_phone" || t.typ == "redroid") }

  /** Two targets that cannot both be there. */
  predicate Clash(a: Target, b: Target) {
    || a.id == b.id
    || (Trim(a.name) != "" && a.name == b.name)
    || (Trim(In(a.values, PORT)) != "" && In(a.values, PORT) == In(b.values, PORT))
    || (Trim(In(a.values, CONTAINER_NAME)) != "" && In(a.values, CONTAINER_NAME) == In(b.values, CONTAINER_NAME))
    || (Trim(In(a.values, WORK_DIR)) != "" && In(a.values, WORK_DIR) == In(b.values, WORK_DIR))
    || (HasSerial(a) && HasSerial(b) && a.serial == b.serial)
    || (a.typ == b.typ && (a.typ == "android_emulator" || a.typ == "ios_simulator"))
  }

  predicate Compatible(ts: seq<Target>) { forall i, j :: 0 <= i < j < |ts| ==> !Clash(ts[i], ts[j]) }

  type Targets = ts: seq<Target> | |ts| <= MAX_INT

  /** The canonical runner ID and its targets. */
  datatype Inventory = Inventory(runnerID: string, targets: Targets)

  function ReadInventory(v: Values): Option<Inventory> {
    var runnerID := CanonicalID(Get(v, Host(KRunner(SRunnerID))));
    match ReadInt(Trim(Get(v, Count)))
    case None => None
    case Some(count) =>
      if count < 1 || runnerID == "" || exists k :: k in v && !KeyAllowed(k, count) then None
      else match ReadTargets(runnerID, v, count)
        case None => None
        case Some(ts) => if Compatible(ts) then Some(Inventory(runnerID, ts)) else None
  }

  // ---------------------------------------------------------------- from flat to typed

  function TypedKind(p: Platform, t: Target): Option<Kind> {
    var b := t.values;
    match t.typ
    case "android_phone" => Some(TypedPhysical(t))
    case "android_emulator" => TypedEmulator(p, b)
    case "redroid" => TypedRedroid(p, t)
    case "ios_simulator" => Some(Simulator(In(b, IOS_UDID)))
    case _ => None
  }

  function TypedPhysical(t: Target): Kind {
    match t.mode
    case "wifi" =>
      var ip := if t.wifiIP == "" then In(t.values, WIFI_IP) else t.wifiIP;
      var port := if t.wifiPort == "" then In(t.values, WIFI_PORT) else t.wifiPort;
      Physical("wifi", "", ip, if port == "" then DEFAULT_PORT else port)
    case "usb" => Physical("usb", t.serial, "", "")
    case _ => Physical(t.mode, "", "", "")
  }

  function TypedEmulator(p: Platform, b: Block): Option<Kind> {
    var abi := DefaultIfEmpty(In(b, ABI), p.abi);
    var baseName := DefaultIfEmpty(In(b, BASE_NAME), "credimi");
    match ReadFlag(In(b, HEADLESS), false)
    case None => None
    case Some(headless) =>
      Some(AVD(Emulator(PositiveOr(In(b, API_LEVEL), 35), abi,
                        DefaultIfEmpty(In(b, SYSTEM_IMAGE), "system-images;android-35;google_apis;" + abi),
                        baseName, DefaultIfEmpty(In(b, GOLDEN_PATH), "/avd-golden/" + baseName + "-golden"), headless,
                        PositiveOr(In(b, MEMORY_MB), 2048), PositiveOr(In(b, CORES), 2))))
  }

  function TypedRedroid(p: Platform, t: Target): Option<Kind> {
    var b := t.values;
    var port := ReadPort(if t.wifiPort == "" then In(b, WIFI_PORT) else t.wifiPort);
    var sudo := ReadFlag(In(b, SUDO), false);
    var path := EffectiveKnownHosts(p, In(b, SSH_TARGET), In(b, SSH_KNOWN_HOSTS));
    if port.None? || sudo.None? || HasSpace(path) then None
    else
      Some(RedroidOf(Redroid(if t.wifiIP == "" then In(b, WIFI_IP) else t.wifiIP,
                             DefaultIfEmpty(In(b, REDROID_IMAGE), "redroid:latest"),
                             DefaultIfEmpty(In(b, REDROID_DATA_DIR), "/home/credimi/redroid-data"),
                             DefaultIfEmpty(In(b, REDROID_DATA_TAR), "/home/credimi/redroid-data.tar"), port.value,
                             In(b, SSH_TARGET), In(b, SSH_PASSWORD), path, sudo.value, In(b, SUDO_PASSWORD))))
  }

  function TypedDevice(p: Platform, t: Target): Option<Device> {
    match TypedKind(p, t)
    case None => None
    case Some(k) => Some(Device(t.id, t.name, t.description, t.enabled, k))
  }

  function TypedDevices(p: Platform, ts: seq<Target>): (r: Option<seq<Device>>)
    ensures r.Some? ==> |r.value| == |ts|
  {
    if ts == [] then Some([])
    else match TypedDevices(p, ts[..|ts| - 1])
      case None => None
      case Some(before) =>
        match TypedDevice(p, ts[|ts| - 1])
        case None => None
        case Some(d) => Some(before + [d])
  }

  function ReadDevices(p: Platform, v: Values): Option<Devices> {
    if Trim(Get(v, Count)) == "" || Trim(Get(v, Count)) == "0" then Some([])
    else match ReadInventory(v)
      case None => None
      case Some(inventory) => TypedDevices(p, inventory.targets)
  }

  function H(v: Values, h: HostKey): string { Get(v, Host(h)) }

  function ReadSchema(v: Values): Option<Int> {
    if Trim(H(v, KSchema)) == "" then Some(1) else ReadInt(Trim(H(v, KSchema)))
  }

  function ReadRunner(v: Values): Option<Runner> {
    match ReadFlag(H(v, KRunner(SPublished)), false)
    case None => None
    case Some(published) =>
      Some(Runner(H(v, KRunner(SRunnerID)), H(v, KRunner(SRunnerName)), H(v, KRunner(SOrganization)),
                  H(v, KRunner(SDescription)), published))
  }

  /** Without a recorded mode an admin key decides. */
  function ReadCredimi(v: Values): Credimi {
    var mode := Trim(H(v, KCredimi(SAuthMode)));
    var inferred := if H(v, KCredimi(SAdminKey)) != "" then "internal_admin" else "user";
    Credimi(H(v, KCredimi(SURL)), if mode != "" then mode else inferred, H(v, KCredimi(SUserKey)),
            H(v, KCredimi(SAdminKey)))
  }

  function ReadServer(p: Platform, v: Values): Option<Server> {
    var browser := ReadFlag(H(v, KServer(SOpenBrowser)), true);
    var header := ReadTime(p, H(v, KServer(SHeaderTimeout)), 0);
    var shutdown := ReadTime(p, H(v, KServer(SShutdownTimeout)), 0);
    if browser.None? || header.None? || shutdown.None? then None
    else Some(Server(Join(H(v, KServer(SRunnerHost)), H(v, KServer(SRunnerPort))),
                     Join(H(v, KServer(SDashboardHost)), H(v, KServer(SDashboardPort))),
                     browser.value, H(v, KServer(SToken)), header.value, shutdown.value))
  }

  function ReadStorage(p: Platform, v: Values): Option<Storage> {
    match ReadTime(p, H(v, KStorage(SRetention)), 0)
    case None => None
    case Some(retention) => Some(Storage(H(v, KStorage(SStateDir)), H(v, KStorage(STempDir)), retention))
  }

  function ReadObservability(v: Values): Option<Observability> {
    match ReadFlag(H(v, KObservability(SOtelEnabled)), false)
    case None => None
    case Some(enabled) =>
      Some(Observability(enabled, H(v, KObservability(SOtelService)), H(v, KObservability(SOtelEndpoint))))
  }

  function ReadAndroid(v: Values): Android {
    Android(H(v, KAndroid(SImage)), H(v, KAndroid(SPullPolicy)), H(v, KAndroid(SNetwork)), H(v, KAndroid(SStateVolume)),
            H(v, KAndroid(SToolVolume)), H(v, KAndroid(SSDKVolume)), H(v, KAndroid(SADBKeys)),
            H(v, KAndroid(SRecordSize)))
  }

  function ReadExposure(v: Values): Exposure {
    Exposure(ReadMode(H(v, KExposure(SMode))), H(v, KExposure(SPublicURL)),
             H(v, KExposure(SPublicPort)), H(v, KExposure(SDomain)), H(v, KExposure(SCloudflare)))
  }

  function ReadConfig(p: Platform, v: Values): Option<Config> {
    var schema, runner, server := ReadSchema(v), ReadRunner(v), ReadServer(p, v);
    var storage, observability, devices := ReadStorage(p, v), ReadObservability(v), ReadDevices(p, v);
    if schema.None? || runner.None? || server.None? || storage.None? || observability.None? || devices.None? then None
    else Some(Config(schema.value, runner.value, ReadCredimi(v), H(v, KTemporal), server.value, ReadExposure(v),
                     observability.value,
                     storage.value, ReadAndroid(v), devices.value))
  }

  // ---------------------------------------------------------------- defaults

  function Or(s: string, fallback: string): string { if s == "" then fallback else s }
  function OrTime(d: int, fallback: int): int { if d == 0 then fallback else d }

  const SECOND := 1_000_000_000

  function DefaultServer(s: Server): Server {
    s.(apiListen := Or(s.apiListen, "0.0.0.0:8050"), dashboardListen := Or(s.dashboardListen, "0.0.0.0:8051"),
       headerTimeout := OrTime(s.headerTimeout, 60 * SECOND), shutdownTimeout := OrTime(s.shutdownTimeout, 30 * SECOND))
  }

  function DefaultAndroid(a: Android): Android {
    a.(image := Or(a.image, "ghcr.io/forkbombeu/credimi-runner:latest"),
       pullPolicy := Or(a.pullPolicy, "if-not-present"),
       network := Or(a.network, "credimi-runner"), stateVolume := Or(a.stateVolume, "credimi-runner-state"),
       toolVolume := Or(a.toolVolume, "credimi-runner-tools"), sdkVolume := Or(a.sdkVolume, "credimi-runner-sdk"))
  }

  /** Fails only where the machine has no default for the state directory. */
  function DefaultStorage(p: Platform, s: Storage): Option<Storage> {
    if s.stateDir == "" && p.stateDir.None? then None
    else
      var dir := if s.stateDir == "" then p.stateDir.value else s.stateDir;
      Some(Storage(dir, if s.tempDir == "" then p.under(dir) else s.tempDir, OrTime(s.retention, 604800 * SECOND)))
  }

  function ApplyDefaults(p: Platform, cfg: Config): Option<Config> {
    match DefaultStorage(p, cfg.storage)
    case None => None
    case Some(storage) =>
      Some(cfg.(server := DefaultServer(cfg.server), exposure := cfg.exposure.(mode := Or(cfg.exposure.mode, "manual")),
                storage := storage, android := DefaultAndroid(cfg.android)))
  }

  function TypedFromValues(p: Platform, v: Values): Option<Config> {
    match ReadConfig(p, v)
    case None => None
    case Some(cfg) => ApplyDefaults(p, cfg)
  }
}
