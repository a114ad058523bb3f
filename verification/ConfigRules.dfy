/** Which configurations are accepted. */
module ConfigRules {
  import opened Wrappers
  import opened Text
  import opened Numbers
  import opened ConfigSpec

  predicate Alnum(c: char) { 'a' <= c <= 'z' || '0' <= c <= '9' }

  /** Two or more names of lower-case letters, digits and inner hyphens, with slashes
      between them. */
  predicate CanonicalText(s: string) {
    && s != "" && Alnum(s[0]) && Alnum(s[|s| - 1]) && '/' in s
    && (forall i :: 0 <= i < |s| ==> Alnum(s[i]) || s[i] == '-' || s[i] == '/')
    && (forall i :: 0 <= i < |s| && s[i] == '/' ==> 0 < i < |s| - 1 && Alnum(s[i - 1]) && Alnum(s[i + 1]))
  }

  lemma {:induction false} CanonicalStays(s: string)
    requires CanonicalText(s)
    ensures Trimmed(s) && Trim(s) == s && CanonicalID(s) == s
  {
    TrimTrims(s);
  }

  predicate Required(s: string) { Trim(s) != "" }

  predicate ValidPort(s: string) {
    (forall i :: 0 <= i < |s| ==> IsDigit(s[i])) && ReadNat(s).Some? && 1 <= ReadNat(s).value <= 65535
  }

  /** The checks that parse URLs and paths, and the platform the configuration is for. */
  datatype Checks = Checks(url: string -> bool, domain: string -> bool, absolutePath: string -> bool, darwin: bool,
                           linux: bool)

  function PortOrDefault(port: string): string { if Trim(port) == "" then DEFAULT_PORT else Trim(port) }

  predicate KindAccepted(c: Checks, k: Kind) {
    match k
    case Physical(transport, serial, ip, port) =>
      (match transport
       case "usb" => Required(serial) && ip == "" && port == ""
       case "wifi" => Required(ip) && serial == "" && ValidPort(PortOrDefault(port))
       case "no_device" => serial == "" && ip == "" && port == ""
       case _ => false)
    case AVD(e) =>
      (c.linux || c.darwin) && Required(e.abi) && Required(e.systemImage) && Required(e.baseName)
      && Required(e.goldenSource)
      && e.apiLevel > 0 && e.memory > 0 && e.cores > 0
    case RedroidOf(r) =>
      && (c.linux || c.darwin) && Required(r.host) && Required(r.image) && Required(r.dataDir)
      && Required(r.dataArchive) && 1 <= r.port <= 65535
    case Simulator(udid) => c.darwin && Required(udid)
  }

  /** The address at which no two devices may be. */
  function Endpoint(k: Kind): Option<string> {
    match k
    case Physical(transport, serial, ip, port) =>
      if transport == "usb" then Some(serial) else if transport == "wifi" then Some(Join(ip, PortOrDefault(port)))
      else None
    case RedroidOf(r) => Some(Join(r.host, ShowInt(r.port)))
    case _ => None
  }

  predicate DeviceAccepted(c: Checks, runnerID: string, d: Device) {
    runnerID + "/" <= d.id && CanonicalText(d.id) && Required(d.name) && KindAccepted(c, d.kind)
  }

  predicate Conflict(a: Device, b: Device) {
    || a.id == b.id || a.name == b.name
    || (Endpoint(a.kind).Some? && Endpoint(a.kind) == Endpoint(b.kind))
    || (a.kind.AVD? && b.kind.AVD?) || (a.kind.Simulator? && b.kind.Simulator?)
  }

  predicate DevicesAccepted(c: Checks, runnerID: string, devices: seq<Device>) {
    && (forall i :: 0 <= i < |devices| ==> DeviceAccepted(c, runnerID, devices[i]))
    && (forall i, j :: 0 <= i < j < |devices| ==> !Conflict(devices[i], devices[j]))
  }

  predicate RunnerAccepted(r: Runner) {
    CanonicalText(r.id) && Required(r.name) && Required(r.organization) && r.organization + "/" <= r.id
  }

  predicate CredimiAccepted(c: Checks, k: Credimi) {
    && Required(k.url) && c.url(k.url)
    && match k.authMode
       case "user" => Required(k.userKey) && !Required(k.adminKey)
       case "internal_admin" => Required(k.adminKey) && !Required(k.userKey)
       case _ => false
  }

  predicate ServerAccepted(p: Platform, s: Server) {
    p.split(s.apiListen).Some? && p.split(s.dashboardListen).Some? && s.headerTimeout > 0 && s.shutdownTimeout > 0
  }

  predicate ExposureAccepted(c: Checks, e: Exposure) {
    && (Trim(e.publicPort) == "" || ValidPort(Trim(e.publicPort)))
    && match e.mode
       case "manual" => Required(e.publicURL) && c.url(e.publicURL)
       case "quick_tunnel" => !Required(e.cloudflareToken)
       case "named_tunnel" => Required(e.domain) && Required(e.cloudflareToken) && c.domain(e.domain)
       case _ => false
  }

  predicate StorageAccepted(c: Checks, s: Storage) {
    s.retention > 0 && Required(s.stateDir) && c.absolutePath(s.stateDir)
  }

  predicate AndroidAccepted(a: Android) {
    && Required(a.image) && (a.pullPolicy == "always" || a.pullPolicy == "if-not-present" || a.pullPolicy == "never")
    && Required(a.network) && Required(a.stateVolume) && Required(a.toolVolume) && Required(a.sdkVolume)
  }

  predicate Accepted(p: Platform, c: Checks, cfg: Config) {
    && cfg.schema == 1 && RunnerAccepted(cfg.runner) && CredimiAccepted(c, cfg.credimi) && Required(cfg.temporal)
    && ServerAccepted(p, cfg.server) && StorageAccepted(c, cfg.storage) && ExposureAccepted(c, cfg.exposure)
    && AndroidAccepted(cfg.android) && DevicesAccepted(c, cfg.runner.id, cfg.devices)
  }
}
