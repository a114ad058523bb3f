/** Every reason for which validation refuses a configuration. */
module ConfigRefusal {
  import opened Wrappers
  import opened Text
  import opened Numbers
  import opened ConfigSpec
  import opened ConfigRules

  predicate Blank(s: string) { Trim(s) == "" }

  /** A port is a number from 1 to 65535 in digits only. */
  predicate BadPort(s: string) {
    s == "" || (exists i :: 0 <= i < |s| && !('0' <= s[i] <= '9')) || ReadNat(s) == Some(0)
    || (ReadNat(s).Some? && ReadNat(s).value >= 65536)
  }

  /** Two names at least, of small letters, digits and hyphens; none is empty or begins or ends with a hyphen. */
  predicate BadID(s: string) {
    || (forall i :: 0 <= i < |s| ==> s[i] != '/')
    || (exists i :: 0 <= i < |s| && !('a' <= s[i] <= 'z') && !('0' <= s[i] <= '9') && s[i] != '-' && s[i] != '/')
    || (exists i :: 0 <= i <= |s| && Edge(s, i) && (i == |s| || s[i] == '-' || s[i] == '/'))
    || (exists i :: 0 < i < |s| && s[i] == '/' && s[i - 1] == '-')
    || (s != "" && s[|s| - 1] == '-')
  }

  /** A name begins here. */
  predicate Edge(s: string, i: nat)
    requires i <= |s|
  {
    i == 0 || s[i - 1] == '/'
  }

  predicate BadPhone(k: Kind)
    requires k.Physical?
  {
    || k.transport !in {"usb", "wifi", "no_device"}
    || (k.transport == "usb" && (Blank(k.serial) || k.wifiIP != "" || k.wifiPort != ""))
    || (k.transport == "wifi" && (Blank(k.wifiIP) || k.serial != ""
                                  || (!Blank(k.wifiPort) && BadPort(Trim(k.wifiPort)))))
    || (k.transport == "no_device" && (k.serial != "" || k.wifiIP != "" || k.wifiPort != ""))
  }

  predicate BadKind(c: Checks, k: Kind) {
    match k
    case Physical(_, _, _, _) => BadPhone(k)
    case AVD(e) =>
      || (!c.linux && !c.darwin) || Blank(e.abi) || Blank(e.systemImage) || Blank(e.baseName) || Blank(e.goldenSource)
      || e.apiLevel <= 0 || e.memory <= 0 || e.cores <= 0
    case RedroidOf(r) =>
      || (!c.linux && !c.darwin) || Blank(r.host) || Blank(r.image) || Blank(r.dataDir) || Blank(r.dataArchive)
      || r.port < 1 || r.port > 65535
    case Simulator(udid) => !c.darwin || Blank(udid)
  }

  predicate BadDevice(c: Checks, runnerID: string, d: Device) {
    !(runnerID + "/" <= d.id) || BadID(d.id) || Blank(d.name) || BadKind(c, d.kind)
  }

  /** Two devices are reached in the same way. */
  ghost predicate SameWay(a: Kind, b: Kind) {
    exists way: string :: At(a, way) && At(b, way)
  }

  /** A phone by its serial, or by host and port, as every Redroid device. */
  predicate At(k: Kind, way: string) {
    match k
    case Physical(transport, serial, ip, port) =>
      || (transport == "usb" && way == serial)
      || (transport == "wifi" && way == Address(ip, if Blank(port) then "5555" else Trim(port)))
    case RedroidOf(r) => way == Address(r.host, ShowInt(r.port))
    case _ => false
  }

  function Address(host: string, port: string): string {
    if ':' in host then "[" + host + "]:" + port else host + ":" + port
  }

  ghost predicate Clash(a: Device, b: Device) {
    a.id == b.id || a.name == b.name || SameWay(a.kind, b.kind)
    || (a.kind.AVD? && b.kind.AVD?) || (a.kind.Simulator? && b.kind.Simulator?)
  }

  predicate BadRunner(r: Runner) {
    BadID(r.id) || Blank(r.name) || Blank(r.organization) || !(r.organization + "/" <= r.id)
  }

  predicate BadCredimi(c: Checks, k: Credimi) {
    || Blank(k.url) || !c.url(k.url) || k.authMode !in {"user", "internal_admin"}
    || (k.authMode == "user" && (Blank(k.userKey) || !Blank(k.adminKey)))
    || (k.authMode == "internal_admin" && (Blank(k.adminKey) || !Blank(k.userKey)))
  }

  predicate BadExposure(c: Checks, e: Exposure) {
    || (!Blank(e.publicPort) && BadPort(Trim(e.publicPort))) || e.mode !in {"manual", "quick_tunnel", "named_tunnel"}
    || (e.mode == "manual" && (Blank(e.publicURL) || !c.url(e.publicURL)))
    || (e.mode == "quick_tunnel" && !Blank(e.cloudflareToken))
    || (e.mode == "named_tunnel" && (Blank(e.domain) || Blank(e.cloudflareToken) || !c.domain(e.domain)))
  }

  predicate BadHost(p: Platform, c: Checks, cfg: Config) {
    || cfg.schema != 1 || Blank(cfg.temporal)
    || p.split(cfg.server.apiListen).None? || p.split(cfg.server.dashboardListen).None?
    || cfg.server.headerTimeout <= 0 || cfg.server.shutdownTimeout <= 0
    || cfg.storage.retention <= 0 || Blank(cfg.storage.stateDir) || !c.absolutePath(cfg.storage.stateDir)
    || Blank(cfg.android.image) || cfg.android.pullPolicy !in {"always", "if-not-present", "never"}
       || Blank(cfg.android.network)
    || Blank(cfg.android.stateVolume) || Blank(cfg.android.toolVolume) || Blank(cfg.android.sdkVolume)
  }

  lemma {:induction false} IDExactly(s: string)
    ensures CanonicalText(s) <==> !BadID(s)
  {
    assert forall i :: 0 <= i <= |s| ==> (Edge(s, i) <==> i == 0 || s[i - 1] == '/');
    if !BadID(s) {
      forall i | 0 <= i < |s| && s[i] == '/' ensures i + 1 < |s| && s[i + 1] != '-' && s[i + 1] != '/' {
        assert Edge(s, i + 1);
      }
      assert Edge(s, 0) && s != "";
    }
  }

  lemma {:induction false} PortExactly(s: string)
    ensures ValidPort(s) <==> !BadPort(s)
  {
    hide ReadNat;
    OnlyDigitsRead(s);
  }

  lemma {:induction false} KindExactly(c: Checks, k: Kind)
    ensures KindAccepted(c, k) <==> !BadKind(c, k)
  {
    hide Trim, ValidPort, BadPort;
    if k.Physical? {
      PortExactly(PortOrDefault(k.wifiPort));
      PortExactly(Trim(k.wifiPort));
      assert !BadPort("5555") by { DefaultIsGood(); }
    }
  }

  lemma DefaultIsGood()
    ensures !BadPort("5555")
  {
    NumberRoundTrip(5555);
    ReadShown(5555);
    assert ShowNat(5) == "5" && ShowNat(55) == "55" && ShowNat(555) == "555" && ShowNat(5555) == "5555";
  }

  lemma {:induction false} WayExactly(a: Kind, b: Kind)
    ensures SameWay(a, b) <==> Endpoint(a).Some? && Endpoint(a) == Endpoint(b)
  {
    hide Trim, ShowInt;
    forall k: Kind, way ensures At(k, way) <==> Endpoint(k) == Some(way) { }
    if Endpoint(a).Some? && Endpoint(a) == Endpoint(b) { assert At(a, Endpoint(a).value) && At(b, Endpoint(a).value); }
  }

  lemma {:induction false} DeviceExactly(c: Checks, runnerID: string, d: Device)
    ensures DeviceAccepted(c, runnerID, d) <==> !BadDevice(c, runnerID, d)
  {
    hide KindAccepted, BadKind, CanonicalText, BadID, Trim;
    KindExactly(c, d.kind);
    IDExactly(d.id);
  }

  /** A configuration is refused exactly for one of these reasons. */
  lemma {:induction false} RefusedExactly(p: Platform, c: Checks, cfg: Config)
    ensures !Accepted(p, c, cfg) <==>
              || BadHost(p, c, cfg) || BadRunner(cfg.runner) || BadCredimi(c, cfg.credimi)
                 || BadExposure(c, cfg.exposure)
              || (exists i :: 0 <= i < |cfg.devices| && BadDevice(c, cfg.runner.id, cfg.devices[i]))
              || (exists i, j :: 0 <= i < j < |cfg.devices| && Clash(cfg.devices[i], cfg.devices[j]))
  {
    hide Trim, CanonicalText, BadID, ValidPort, BadPort, DeviceAccepted, BadDevice, Conflict, Clash;
    IDExactly(cfg.runner.id);
    PortExactly(Trim(cfg.exposure.publicPort));
    forall i | 0 <= i < |cfg.devices|
      ensures DeviceAccepted(c, cfg.runner.id, cfg.devices[i]) <==> !BadDevice(c, cfg.runner.id, cfg.devices[i]) {
      DeviceExactly(c, cfg.runner.id, cfg.devices[i]);
    }
    forall i, j | 0 <= i < j < |cfg.devices| ensures Conflict(cfg.devices[i], cfg.devices[j])
        <==> Clash(cfg.devices[i], cfg.devices[j]) {
      ClashExactly(cfg.devices[i], cfg.devices[j]);
    }
  }

  lemma {:induction false} ClashExactly(a: Device, b: Device)
    ensures Conflict(a, b) <==> Clash(a, b)
  {
    hide SameWay, Endpoint;
    WayExactly(a.kind, b.kind);
  }
}
