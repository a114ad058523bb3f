/** Must the service be replaced?  The host can compare two configurations; the
    container knows only a fingerprint and the capabilities exported to it. */
module ServiceCompat {
  import opened Wrappers
  import opened Text

  // ---------------------------------------------------------------- configuration

  /** A hostname as parsed: lower case, without brackets.  `ip` is its reading as an
      address, which has one canonical text. */
  datatype Name = Name(text: string, ip: Option<Address>)
  datatype Address = Address(canonical: string, loopback: bool)

  /** A missing section is None. */
  datatype Kind =
    | Physical(transport: Option<string>)
    | Emulator(configured: bool)
    | Redroid(ssh: Option<Ssh>)
    | Other

  datatype Ssh = Ssh(knownHosts: string, target: string)
  datatype Device = Device(enabled: bool, kind: Kind)

  /** Images, volumes, timeouts and the like, which are compared as they are. */
  datatype Settings = Settings(readHeaderTimeout: string, shutdownTimeout: string, runnerImage: string,
                               pullPolicy: string,
                               network: string, stateVolume: string, toolCacheVolume: string, sdkVolume: string,
                               adbKeysPath: string)

  datatype Listen = Listen(host: string, port: string)

  datatype Config = Config(settings: Settings, dashboardBind: Listen, dashboardPort: string, apiPort: string,
                           credimi: Option<Name>, temporal: Name, manual: bool, publicURL: Option<Name>,
                           devices: seq<Device>)

  /** `resolved` maps a name to its address on this host, or to "" if it has none. */
  datatype Host = Host(linux: bool, beforeSetup: bool, addresses: set<string>, resolved: Option<map<string, string>>)

  // ---------------------------------------------------------------- locality

  function Normalized(text: string): string {
    if text != "" && text[|text| - 1] == '.' then text[..|text| - 1] else text
  }

  datatype Locality = Locality(local: bool, known: bool)

  function Lookup(host: Host, key: string): Locality {
    if host.resolved.Some? && key in host.resolved.value then Locality(host.resolved.value[key] != "", true)
    else Locality(false, false)
  }

  /** Local, remote or unknown. */
  function LocalityOf(name: Name, host: Host): Locality {
    if name.text == "localhost" then Locality(true, true)
    else match name.ip
      case Some(ip) =>
        if ip.loopback then Locality(true, true)
        else if host.resolved.Some? then Lookup(host, ip.canonical)
        else Locality(ip.canonical in host.addresses, true)
      case None => Lookup(host, Normalized(name.text))
  }

  function Named(name: Option<Name>): seq<Name> { if name.Some? && name.value.text != "" then [name.value] else [] }

  /** The names on which the topology depends. */
  function Dependencies(cfg: Config): seq<Name> {
    Named(cfg.credimi) + Named(Some(cfg.temporal)) + if cfg.manual then Named(cfg.publicURL) else []
  }

  predicate LocalURL(name: Option<Name>, host: Host) {
    name.Some? && name.value.text != "" && LocalityOf(name.value, host).local
  }

  predicate HostLocalDependencies(cfg: Config, host: Host) {
    LocalURL(cfg.credimi, host) || LocalityOf(cfg.temporal, host).local || (cfg.manual && LocalURL(cfg.publicURL, host))
  }

  predicate Unknown(cfg: Config, host: Host) {
    host.resolved.Some? && host.linux && exists n :: n in Dependencies(cfg) && !LocalityOf(n, host).known
  }

  // ---------------------------------------------------------------- network mode

  datatype Mode = HostNetwork | Bridge

  function TransportOf(d: Device): string {
    if d.enabled && d.kind.Physical? && d.kind.transport.Some? then Trim(d.kind.transport.value) else ""
  }

  /** The network decision accepts any spelling of "usb". */
  predicate WantsUSB(cfg: Config) { exists d :: d in cfg.devices && EqualFold(TransportOf(d), "usb") }

  function ModeFor(cfg: Config, host: Host): Mode {
    if EqualFold(Trim(cfg.settings.network), "host") then HostNetwork
    else if !host.linux then Bridge
    else if host.beforeSetup || WantsUSB(cfg) || HostLocalDependencies(cfg, host) then HostNetwork
    else Bridge
  }

  // ---------------------------------------------------------------- projection

  const DEFAULT_KNOWN_HOSTS := "<host-default-known-hosts>"

  datatype Needs = Needs(hostADB: bool, usb: bool, emulator: bool, knownHosts: seq<string>)

  /** What is published where; a bridged service maps ports, a host one binds. */
  datatype Topology = Topology(configured: bool, settings: Settings, mode: Mode, apiPublishHost: string,
                               bind: Option<Listen>,
                               apiPort: string, dashboardPort: string, dashboardHost: string)

  datatype Projection = Projection(topology: Topology, needs: Needs)

  function TopologyOf(cfg: Config, configured: bool, host: Host): Topology {
    match ModeFor(cfg, host)
    case HostNetwork => Topology(configured, cfg.settings, HostNetwork, "", Some(cfg.dashboardBind), "", "", "")
    case Bridge => Topology(configured, cfg.settings, Bridge, if cfg.manual then "0.0.0.0" else "127.0.0.1", None,
                            cfg.apiPort, cfg.dashboardPort, cfg.dashboardBind.host)
  }

  function KnownHostsOf(d: Device): string {
    if !d.enabled || !d.kind.Redroid? || d.kind.ssh.None? then ""
    else
      var path := Trim(d.kind.ssh.value.knownHosts);
      if path == "" && Trim(d.kind.ssh.value.target) != "" then DEFAULT_KNOWN_HOSTS else path
  }

  function NeedsOf(configured: bool, devices: seq<Device>): Needs {
    if devices == [] then Needs(!configured, false, false, [])
    else
      var before := NeedsOf(configured, devices[..|devices| - 1]);
      var d := devices[|devices| - 1];
      var usb, wifi := TransportOf(d) == "usb", TransportOf(d) == "wifi";
      Needs(before.hostADB || usb || wifi, before.usb || usb, before.emulator || (d.enabled && d.kind.Emulator?),
            if KnownHostsOf(d) != "" then Insert(before.knownHosts, KnownHostsOf(d)) else before.knownHosts)
  }

  function ProjectionOf(cfg: Config, configured: bool, host: Host): Projection {
    Projection(TopologyOf(cfg, configured, host), NeedsOf(configured, cfg.devices))
  }

  /** The digest of a projection; two projections with one digest are the same. */
  datatype Fingerprint = Fingerprint(of: Projection)

  // ---------------------------------------------------------------- the two decisions

  predicate Superset(have: seq<string>, want: seq<string>) { forall s :: s in want ==> s in have }

  /** Needs that the applied service has anyway. */
  function Retained(desired: Needs, applied: Needs): Needs {
    Needs(desired.hostADB || applied.hostADB, desired.usb || applied.usb, desired.emulator || applied.emulator,
          applied.knownHosts)
  }

  predicate HostSaysCompatible(applied: Config, desired: Config, configured: bool, host: Host) {
    !Unknown(desired, host)
    && var a, d := ProjectionOf(applied, configured, host), ProjectionOf(desired, configured, host);
       Superset(a.needs.knownHosts, d.needs.knownHosts)
       && Fingerprint(a) == Fingerprint(d.(needs := Retained(d.needs, a.needs)))
  }

  /** What the container is told about the service it runs in. */
  datatype Exported = Exported(fingerprint: Fingerprint, needs: Needs, mode: Mode, resolved: map<string, string>)

  function Export(cfg: Config, host: Host): Exported {
    var needs := NeedsOf(true, cfg.devices);
    Exported(Fingerprint(ProjectionOf(cfg, !host.beforeSetup, host)),
             needs.(hostADB := needs.hostADB || host.beforeSetup),
             ModeFor(cfg, host), if host.resolved.Some? then host.resolved.value else map[])
  }

  function ContainerView(x: Exported): Host { Host(true, false, {}, Some(x.resolved)) }

  predicate ContainerSaysCompatible(desired: Config, configured: bool, x: Exported) {
    && !Unknown(desired, ContainerView(x))
    && var d := ProjectionOf(desired, configured, ContainerView(x));
       d.topology.mode == x.mode && Superset(x.needs.knownHosts, d.needs.knownHosts)
       && Fingerprint(d.(needs := Retained(d.needs, x.needs))) == x.fingerprint
  }

  // ---------------------------------------------------------------- agreement

  /** With a resolved-host map the decision does not look at the host's addresses. */
  lemma {:induction false} ViewIsEnough(cfg: Config, host: Host, view: Host, name: Name)
    requires host.resolved.Some? && view.resolved == host.resolved && host.linux == view.linux
    requires host.beforeSetup == view.beforeSetup
    ensures LocalityOf(name, view) == LocalityOf(name, host)
    ensures HostLocalDependencies(cfg, view) == HostLocalDependencies(cfg, host)
    ensures Unknown(cfg, view) == Unknown(cfg, host) && ModeFor(cfg, view) == ModeFor(cfg, host)
  {
    hide WantsUSB, EqualFold, Normalized, Named;
    forall n: Name ensures LocalityOf(n, view) == LocalityOf(n, host) { }
  }

  /** For a configured Linux service and one resolved-host map the container decides
      from fingerprint and capabilities as the host does from both configurations. */
  lemma {:induction false} HostAndContainerAgree(applied: Config, desired: Config, host: Host)
    requires host.linux && !host.beforeSetup && host.resolved.Some?
    ensures ContainerSaysCompatible(desired, true, Export(applied, host)) <==>
        HostSaysCompatible(applied, desired, true, host)
  {
    hide NeedsOf, Unknown, ModeFor, Superset;
    var view := ContainerView(Export(applied, host));
    ViewIsEnough(desired, host, view, desired.temporal);
  }

  /** Before setup they need not agree: the host puts the service on its own network,
      which the container would not choose. */
  lemma {:induction false} BeforeSetupTheyMayDisagree()
    ensures exists cfg: Config, host: Host :: host.linux && host.beforeSetup && host.resolved.Some?
              && HostSaysCompatible(cfg, cfg, false, host) && !ContainerSaysCompatible(cfg, false, Export(cfg, host))
  {
    var settings := Settings("", "", "", "", "", "", "", "", "");
    var cfg := Config(settings, Listen("", ""), "", "", None, Name("", None), false, None, []);
    var host := Host(true, true, {}, Some(map[]));
    assert Dependencies(cfg) == [];
    assert ModeFor(cfg, host) == HostNetwork;
    assert ModeFor(cfg, ContainerView(Export(cfg, host))) == Bridge by { assert Trim("") == ""; }
    assert Retained(NeedsOf(false, []), NeedsOf(false, [])) == NeedsOf(false, []);
  }

  /** How they differ before setup: the container also needs a reason of its own for the
      host's network. */
  lemma {:induction false} BeforeSetupExactly(applied: Config, desired: Config, host: Host)
    requires host.linux && host.beforeSetup && host.resolved.Some?
    ensures ContainerSaysCompatible(desired, false, Export(applied, host)) <==>
              && HostSaysCompatible(applied, desired, false, host)
              && (EqualFold(Trim(desired.settings.network), "host") || WantsUSB(desired)
                  || HostLocalDependencies(desired, host))
  {
    hide Unknown, Superset, WantsUSB, EqualFold, Trim, HostLocalDependencies, KnownHostsOf, TransportOf, Insert;
    var view := ContainerView(Export(applied, host));
    ViewIsEnough(desired, host.(beforeSetup := false), view, desired.temporal);
    ViewIsEnough(desired, host.(beforeSetup := false), host.(beforeSetup := false), desired.temporal);
    SetupIsNotLocality(desired, host);
    AlwaysADB(applied.devices);
    AlwaysADB(desired.devices);
  }

  lemma {:induction false} SetupIsNotLocality(cfg: Config, host: Host)
    ensures HostLocalDependencies(cfg, host.(beforeSetup := false)) == HostLocalDependencies(cfg, host)
    ensures Unknown(cfg, host.(beforeSetup := false)) == Unknown(cfg, host)
  {
    hide Normalized, Named;
    forall n: Name ensures LocalityOf(n, host.(beforeSetup := false)) == LocalityOf(n, host) { }
  }

  /** Before setup ADB is needed in any case; the other needs are the same. */
  lemma {:induction false} AlwaysADB(devices: seq<Device>)
    ensures NeedsOf(false, devices) == NeedsOf(true, devices).(hostADB := true)
  {
    hide TransportOf, KnownHostsOf, Insert;
    if devices != [] { AlwaysADB(devices[..|devices| - 1]); }
  }

  // ---------------------------------------------------------------- the relation

  predicate Smaller(d: Needs, a: Needs) {
    (d.hostADB ==> a.hostADB) && (d.usb ==> a.usb) && (d.emulator ==> a.emulator)
    && Superset(a.knownHosts, d.knownHosts)
  }

  /** Compatible means: every name known, the same topology, and no need beyond those
      that the applied service satisfies. */
  lemma {:induction false} CompatibleExactly(applied: Config, desired: Config, configured: bool, host: Host)
    ensures HostSaysCompatible(applied, desired, configured, host) <==>
              && !Unknown(desired, host)
              && TopologyOf(applied, configured, host) == TopologyOf(desired, configured, host)
              && Smaller(NeedsOf(configured, desired.devices), NeedsOf(configured, applied.devices))
  {
    hide NeedsOf, Unknown, TopologyOf, Superset;
  }

  /** On configurations with known locality it is reflexive and transitive. */
  lemma {:induction false} CompatibleIsPreorder(a: Config, b: Config, c: Config, configured: bool, host: Host)
    ensures !Unknown(a, host) ==> HostSaysCompatible(a, a, configured, host)
    ensures HostSaysCompatible(a, b, configured, host) && HostSaysCompatible(b, c, configured, host) ==>
        HostSaysCompatible(a, c, configured, host)
  {
    hide NeedsOf, Unknown, TopologyOf, HostSaysCompatible;
    CompatibleExactly(a, a, configured, host);
    CompatibleExactly(a, b, configured, host);
    CompatibleExactly(b, c, configured, host);
    CompatibleExactly(a, c, configured, host);
  }

  /** What the projection needs is sorted and without duplicates, so that equal sets
      of paths give equal fingerprints. */
  lemma {:induction false} KnownHostsAscend(configured: bool, devices: seq<Device>)
    ensures Ascending(NeedsOf(configured, devices).knownHosts)
    ensures forall s :: s in NeedsOf(configured, devices).knownHosts
                <==> s != "" && exists d :: d in devices && KnownHostsOf(d) == s
  {
    hide KnownHostsOf, TransportOf, Insert;
    if devices != [] {
      var n := |devices| - 1;
      KnownHostsAscend(configured, devices[..n]);
      var before := NeedsOf(configured, devices[..n]).knownHosts;
      InsertKeepsOrder(before, KnownHostsOf(devices[n]));
      InsertAdds(before, KnownHostsOf(devices[n]));
      assert devices == devices[..n] + [devices[n]];
    }
  }

  /** Compatible both ways means the same fingerprint. */
  lemma {:induction false} BothWaysMeansEqual(a: Config, b: Config, configured: bool, host: Host)
    requires HostSaysCompatible(a, b, configured, host) && HostSaysCompatible(b, a, configured, host)
    ensures ProjectionOf(a, configured, host) == ProjectionOf(b, configured, host)
  {
    hide NeedsOf, Unknown, TopologyOf, HostSaysCompatible, Ascending;
    CompatibleExactly(a, b, configured, host);
    CompatibleExactly(b, a, configured, host);
    KnownHostsAscend(configured, a.devices);
    KnownHostsAscend(configured, b.devices);
    SortedIsUnique(NeedsOf(configured, a.devices).knownHosts, NeedsOf(configured, b.devices).knownHosts);
  }

  /** Removing the last USB device is compatible only if something else keeps the
      service on the host's network. */
  lemma {:induction false} LastUsbDeviceNeedsAnotherReason(a: Config, d: Config, configured: bool, host: Host)
    requires HostSaysCompatible(a, d, configured, host) && host.linux && NeedsOf(configured, a.devices).usb
    requires !WantsUSB(d)
    ensures host.beforeSetup || EqualFold(Trim(d.settings.network), "host") || HostLocalDependencies(d, host)
  {
    hide NeedsOf, Unknown, HostSaysCompatible, EqualFold, HostLocalDependencies, WantsUSB;
    CompatibleExactly(a, d, configured, host);
    ExactUsbIsUsb(configured, a.devices);
    assert WantsUSB(a) by { UsbWanted(configured, a); }
  }

  /** Exactly when devices may be replaced so that no USB device is left, on Linux and with
      every name known: something else must keep the service on the host's network. */
  lemma {:induction false} LastUsbDeviceExactly(a: Config, devices: seq<Device>, configured: bool, host: Host)
    requires host.linux && NeedsOf(configured, a.devices).usb && !WantsUSB(a.(devices := devices))
    requires !Unknown(a.(devices := devices), host)
    requires Smaller(NeedsOf(configured, devices), NeedsOf(configured, a.devices))
    ensures HostSaysCompatible(a, a.(devices := devices), configured, host) <==>
              host.beforeSetup || EqualFold(Trim(a.settings.network), "host") || HostLocalDependencies(a, host)
  {
    hide NeedsOf, Unknown, HostSaysCompatible, EqualFold, Trim, WantsUSB, Smaller, HostLocalDependencies;
    var d := a.(devices := devices);
    CompatibleExactly(a, d, configured, host);
    UsbWanted(configured, a);
    SameDependencies(a, d, host);
  }

  lemma {:induction false} SameDependencies(a: Config, d: Config, host: Host)
    requires d == a.(devices := d.devices)
    ensures HostLocalDependencies(d, host) == HostLocalDependencies(a, host)
  {
    hide LocalityOf;
  }

  /** A service whose only device is a USB phone is not found compatible once the phone is
      removed, although its USB access would be a superset. */
  lemma {:induction false} RemovedUsbPhone() returns (a: Config, d: Config, host: Host)
    ensures host.linux && !host.beforeSetup && host.resolved.Some? && d == a.(devices := [])
    ensures Smaller(NeedsOf(true, d.devices), NeedsOf(true, a.devices)) && !Unknown(d, host)
    ensures !HostSaysCompatible(a, d, true, host)
  {
    var settings := Settings("", "", "", "", "", "", "", "", "");
    var phone := Device(true, Physical(Some("usb")));
    a := Config(settings, Listen("", ""), "", "", None, Name("", None), false, None, [phone]);
    d := a.(devices := []);
    host := Host(true, false, {}, Some(map[]));
    TrimTrims("usb");
    assert TransportOf(phone) == "usb" && [phone][..0] == [];
    assert NeedsOf(true, [phone]).usb && NeedsOf(true, []) == Needs(false, false, false, []);
    assert Dependencies(d) == [];
    assert !HostLocalDependencies(a, host) && !EqualFold(Trim(""), "host");
    LastUsbDeviceExactly(a, [], true, host);
  }

  lemma {:induction false} ExactUsbIsUsb(configured: bool, devices: seq<Device>)
    ensures NeedsOf(configured, devices).usb <==> exists d :: d in devices && TransportOf(d) == "usb"
  {
    hide TransportOf, KnownHostsOf, Insert;
    if devices != [] {
      var n := |devices| - 1;
      ExactUsbIsUsb(configured, devices[..n]);
      assert devices == devices[..n] + [devices[n]];
    }
  }

  lemma {:induction false} UsbWanted(configured: bool, cfg: Config)
    requires NeedsOf(configured, cfg.devices).usb
    ensures WantsUSB(cfg)
  {
    ExactUsbIsUsb(configured, cfg.devices);
    var d :| d in cfg.devices && TransportOf(d) == "usb";
    assert EqualFold(TransportOf(d), "usb");
  }

  // ---------------------------------------------------------------- resolution on the host

  /** The host's answers: every dependency by its normalized text, except the empty
      one and "localhost". */
  function Resolve(names: seq<Name>, answer: string -> string): map<string, string> {
    if names == [] then map[]
    else
      var key := Normalized(names[|names| - 1].text);
      var before := Resolve(names[..|names| - 1], answer);
      if key == "" || key == "localhost" then before else before[key := answer(key)]
  }

  lemma {:induction false} ResolvedKeys(names: seq<Name>, answer: string -> string, key: string)
    ensures key in Resolve(names, answer) <==>
        key != "" && key != "localhost" && exists n :: n in names && Normalized(n.text) == key
    ensures key in Resolve(names, answer) ==> Resolve(names, answer)[key] == answer(key)
  {
    if names != [] {
      var k := |names| - 1;
      ResolvedKeys(names[..k], answer, key);
      assert names == names[..k] + [names[k]];
    }
  }

  /** A name that the host's resolution will make known. */
  predicate Resolvable(n: Name, names: seq<Name>) {
    n.text == "localhost"
    || match n.ip
       case Some(ip) =>
         ip.loopback || (ip.canonical != "" && ip.canonical != "localhost"
                         && exists m :: m in names && Normalized(m.text) == ip.canonical)
       case None => Normalized(n.text) != "" && Normalized(n.text) != "localhost"
  }

  /** After the host has resolved the names of a configuration its locality is known
      exactly if every name is resolvable: "localhost." is not, and neither is an
      address that no name spells in its canonical form. */
  lemma {:induction false} ResolutionMakesKnown(cfg: Config, host: Host, answer: string -> string)
    requires host.linux
    ensures !Unknown(cfg, host.(resolved := Some(Resolve(Dependencies(cfg), answer)))) <==>
              forall n :: n in Dependencies(cfg) ==> Resolvable(n, Dependencies(cfg))
  {
    hide Normalized, Dependencies, Resolve;
    var names := Dependencies(cfg);
    var resolved := host.(resolved := Some(Resolve(names, answer)));
    forall n | n in names ensures LocalityOf(n, resolved).known <==> Resolvable(n, names) {
      if n.ip.Some? { ResolvedKeys(names, answer, n.ip.value.canonical); }
      else { ResolvedKeys(names, answer, Normalized(n.text)); }
    }
  }

  /** A service that refers to "localhost." is never found compatible, not even with
      itself. */
  lemma {:induction false} LocalhostWithDotIsNeverCompatible(
      cfg: Config, applied: Config, configured: bool, host: Host, answer: string -> string)
    requires host.linux && cfg.temporal == Name("localhost.", None)
    ensures !HostSaysCompatible(applied, cfg, configured, host.(resolved := Some(Resolve(Dependencies(cfg), answer))))
  {
    hide Resolve;
    ResolutionMakesKnown(cfg, host, answer);
    assert cfg.temporal in Dependencies(cfg);
    assert Normalized("localhost.") == "localhost";
  }
}
