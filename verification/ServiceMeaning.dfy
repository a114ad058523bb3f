/** What decides about the service, spelled out in the configuration: when a name is local, when
    the service is on the host's network, and when an applied service may stay. */
module ServiceMeaning {
  import opened Wrappers
  import opened Text
  import opened ServiceCompat
  import opened ServiceRender

  // ---------------------------------------------------------------- names

  /** The text under which the host records a name: an address by its canonical one, any other
      without a final dot. */
  function KeyOf(n: Name): string {
    if n.ip.Some? then n.ip.value.canonical
    else if |n.text| > 0 && n.text[|n.text| - 1] == '.' then n.text[..|n.text| - 1]
    else n.text
  }

  predicate Loops(n: Name) { n.text == "localhost" || (n.ip.Some? && n.ip.value.loopback) }

  /** Local: on this machine in any case, or recorded with an address, or, where nothing is recorded,
      an address of this machine. */
  predicate IsLocal(n: Name, host: Host) {
    || Loops(n)
    || (host.resolved.Some? && KeyOf(n) in host.resolved.value && host.resolved.value[KeyOf(n)] != "")
    || (host.resolved.None? && n.ip.Some? && n.ip.value.canonical in host.addresses)
  }

  predicate IsKnown(n: Name, host: Host) {
    || Loops(n)
    || (host.resolved.Some? && KeyOf(n) in host.resolved.value)
    || (host.resolved.None? && n.ip.Some?)
  }

  lemma LocalityExactly(n: Name, host: Host)
    ensures LocalityOf(n, host).local <==> IsLocal(n, host)
    ensures LocalityOf(n, host).known <==> IsKnown(n, host)
  {
  }

  /** With the host's own answers a plain name is local exactly if it has an address here. */
  lemma {:induction false} ResolvedLocalExactly(cfg: Config, host: Host, answer: string -> string, n: Name)
    requires n in Dependencies(cfg) && n.ip.None? && KeyOf(n) != "" && KeyOf(n) != "localhost"
    ensures var resolved := host.(resolved := Some(Resolve(Dependencies(cfg), answer)));
            && LocalityOf(n, resolved).known
            && (LocalityOf(n, resolved).local <==> answer(KeyOf(n)) != "")
  {
    hide Resolve, Dependencies;
    ResolvedKeys(Dependencies(cfg), answer, KeyOf(n));
    assert Normalized(n.text) == KeyOf(n);
  }

  // ---------------------------------------------------------------- network

  /** The letters of "usb" and of "host" in any case. */
  predicate SpellsUSB(s: string) { |s| == 3 && s[0] in "uU" && s[1] in "sS" && s[2] in "bB" }
  predicate SpellsHost(s: string) { |s| == 4 && s[0] in "hH" && s[1] in "oO" && s[2] in "sS" && s[3] in "tT" }

  lemma FoldsExactly(s: string)
    ensures EqualFold(s, "usb") <==> SpellsUSB(s)
    ensures EqualFold(s, "host") <==> SpellsHost(s)
  {
    var l, u, h := Lower(s), Lower("usb"), Lower("host");
    assert u == "usb" && h == "host";
    if EqualFold(s, "usb") { assert LowerChar(s[0]) == 'u' && LowerChar(s[1]) == 's' && LowerChar(s[2]) == 'b'; }
    if SpellsUSB(s) { assert l[0] == 'u' && l[1] == 's' && l[2] == 'b'; assert l == "usb"; }
    if EqualFold(s, "host") {
      assert l[0] == 'h' && l[1] == 'o' && l[2] == 's' && l[3] == 't';
    }
    if SpellsHost(s) { assert l[0] == 'h' && l[1] == 'o' && l[2] == 's' && l[3] == 't'; assert l == "host"; }
  }

  /** A phone that is plugged in. */
  predicate Plugged(d: Device) {
    d.enabled && d.kind.Physical? && d.kind.transport.Some? && SpellsUSB(Trim(d.kind.transport.value))
  }

  /** A name that was given. */
  predicate Given(n: Option<Name>) { n.Some? && n.value.text != "" }

  /** The service it talks to, the workflow server, or a public name set by hand is local. */
  predicate ReliesOnHost(cfg: Config, host: Host) {
    || (Given(cfg.credimi) && IsLocal(cfg.credimi.value, host))
    || IsLocal(cfg.temporal, host)
    || (cfg.manual && Given(cfg.publicURL) && IsLocal(cfg.publicURL.value, host))
  }

  predicate OnHostNetwork(cfg: Config, host: Host) {
    || SpellsHost(Trim(cfg.settings.network))
    || (host.linux && (host.beforeSetup || (exists d :: d in cfg.devices && Plugged(d)) || ReliesOnHost(cfg, host)))
  }

  lemma {:induction false} PluggedExactly(cfg: Config)
    ensures WantsUSB(cfg) <==> exists d :: d in cfg.devices && Plugged(d)
  {
    hide EqualFold, Trim, SpellsUSB;
    forall d ensures EqualFold(TransportOf(d), "usb") <==> Plugged(d) {
      FoldsExactly(TransportOf(d));
      assert !SpellsUSB("") by { EmptySpellsNothing(); }
    }
  }

  lemma EmptySpellsNothing()
    ensures !SpellsUSB("") && !SpellsHost("")
  {
  }

  lemma {:induction false} ReliesExactly(cfg: Config, host: Host)
    ensures HostLocalDependencies(cfg, host) <==> ReliesOnHost(cfg, host)
  {
    hide LocalityOf, IsLocal, IsKnown;
    forall n ensures LocalityOf(n, host).local <==> IsLocal(n, host) { LocalityExactly(n, host); }
  }

  /** The network of the service, read off the configuration and the names that the host recorded. */
  lemma {:induction false} ModeExactly(cfg: Config, host: Host)
    ensures ModeFor(cfg, host) == (if OnHostNetwork(cfg, host) then HostNetwork else Bridge)
  {
    hide EqualFold, WantsUSB, HostLocalDependencies, Trim, SpellsHost, Plugged, ReliesOnHost;
    FoldsExactly(Trim(cfg.settings.network));
    PluggedExactly(cfg);
    ReliesExactly(cfg, host);
  }

  // ---------------------------------------------------------------- what may stay

  /** Every name that was given is known, as far as it matters. */
  predicate AllKnown(cfg: Config, host: Host) {
    host.linux && host.resolved.Some? ==>
      && (Given(cfg.credimi) ==> IsKnown(cfg.credimi.value, host))
      && (Given(Some(cfg.temporal)) ==> IsKnown(cfg.temporal, host))
      && (cfg.manual && Given(cfg.publicURL) ==> IsKnown(cfg.publicURL.value, host))
  }

  lemma {:induction false} KnownExactly(cfg: Config, host: Host)
    ensures Unknown(cfg, host) <==> !AllKnown(cfg, host)
  {
    hide LocalityOf, IsLocal, IsKnown;
    forall n ensures LocalityOf(n, host).known <==> IsKnown(n, host) { LocalityExactly(n, host); }
    forall n: Option<Name> | Given(n) ensures n.value in Named(n) { }
    assert Dependencies(cfg) == Named(cfg.credimi) + Named(Some(cfg.temporal)) + (if cfg.manual
                                                                                  then Named(cfg.publicURL) else []);
    if !AllKnown(cfg, host) {
      assert Given(cfg.credimi) ==> cfg.credimi.value in Dependencies(cfg);
      assert Given(Some(cfg.temporal)) ==> cfg.temporal in Dependencies(cfg);
      assert cfg.manual && Given(cfg.publicURL) ==> cfg.publicURL.value in Dependencies(cfg);
    }
  }

  /** What is published: on the host's network the dashboard's address, behind a bridge the ports
      and who may reach them. */
  predicate SamePublication(a: Config, d: Config, host: Host) {
    && (OnHostNetwork(a, host) <==> OnHostNetwork(d, host))
    && (OnHostNetwork(d, host) ==> a.dashboardBind == d.dashboardBind)
    && (!OnHostNetwork(d, host) ==>
          a.manual == d.manual && a.apiPort == d.apiPort && a.dashboardPort == d.dashboardPort
          && a.dashboardBind.host == d.dashboardBind.host)
  }

  lemma {:induction false} PublicationExactly(a: Config, d: Config, configured: bool, host: Host)
    ensures TopologyOf(a, configured, host) == TopologyOf(d, configured, host)
            <==> a.settings == d.settings && SamePublication(a, d, host)
  {
    hide ModeFor, OnHostNetwork;
    ModeExactly(a, host);
    ModeExactly(d, host);
    assert "0.0.0.0" != "127.0.0.1" by { assert "0.0.0.0"[0] != "127.0.0.1"[0]; }
  }

  predicate Phone(d: Device, transport: string) {
    d.enabled && d.kind.Physical? && d.kind.transport.Some? && Trim(d.kind.transport.value) == transport
  }

  /** The file of known hosts that an enabled Redroid device needs: its own, or the host's if it has an
      SSH target. */
  predicate NeedsFile(d: Device, path: string) {
    && d.enabled && d.kind.Redroid? && d.kind.ssh.Some?
    && (if Trim(d.kind.ssh.value.knownHosts) != "" then path == Trim(d.kind.ssh.value.knownHosts)
        else Trim(d.kind.ssh.value.target) != "" && path == "<host-default-known-hosts>")
  }

  ghost predicate Needed(devices: seq<Device>, path: string) { exists d :: d in devices && NeedsFile(d, path) }

  /** No device of the desired service needs access that the applied one does not have. */
  ghost predicate AccessSuffices(a: Config, d: Config, configured: bool) {
    && (configured && (exists x :: x in d.devices && (Phone(x, "usb") || Phone(x, "wifi"))) ==>
          exists x :: x in a.devices && (Phone(x, "usb") || Phone(x, "wifi")))
    && ((exists x :: x in d.devices && Phone(x, "usb")) ==> exists x :: x in a.devices && Phone(x, "usb"))
    && ((exists x :: x in d.devices && x.enabled && x.kind.Emulator?) ==>
          exists x :: x in a.devices && x.enabled && x.kind.Emulator?)
    && (forall path :: Needed(d.devices, path) ==> Needed(a.devices, path))
  }

  lemma {:induction false} PhoneExactly(d: Device, transport: string)
    requires transport != ""
    ensures TransportOf(d) == transport <==> Phone(d, transport)
  {
    hide Trim;
  }

  lemma {:induction false} FileExactly(d: Device, path: string)
    ensures path != "" && KnownHostsOf(d) == path <==> NeedsFile(d, path)
  {
    hide Trim;
  }

  lemma {:induction false} FilesExactly(configured: bool, devices: seq<Device>, path: string)
    ensures path in NeedsOf(configured, devices).knownHosts <==> Needed(devices, path)
  {
    hide NeedsOf, KnownHostsOf, NeedsFile, Ascending;
    KnownHostsAscend(configured, devices);
    forall d ensures path != "" && KnownHostsOf(d) == path <==> NeedsFile(d, path) { FileExactly(d, path); }
  }

  lemma {:induction false} SmallerExactly(a: Config, d: Config, configured: bool)
    ensures Smaller(NeedsOf(configured, d.devices), NeedsOf(configured, a.devices))
            <==> AccessSuffices(a, d, configured)
  {
    hide NeedsOf, TransportOf, Phone, NeedsFile, Needed;
    forall x ensures TransportOf(x) == "usb" <==> Phone(x, "usb") { PhoneExactly(x, "usb"); }
    forall x ensures TransportOf(x) == "wifi" <==> Phone(x, "wifi") { PhoneExactly(x, "wifi"); }
    NeedsExactly(configured, a.devices);
    NeedsExactly(configured, d.devices);
    forall x ensures UsesEmulator(x) <==> x.enabled && x.kind.Emulator? { }
    forall path
      ensures path in NeedsOf(configured, d.devices).knownHosts <==> Needed(d.devices, path)
      ensures path in NeedsOf(configured, a.devices).knownHosts <==> Needed(a.devices, path)
    {
      FilesExactly(configured, d.devices, path);
      FilesExactly(configured, a.devices, path);
    }
  }

  /** The host's decision, read off the two configurations: every name known, the same settings, the
      same publication, and no access beyond what is there. */
  lemma {:induction false} MayStayExactly(a: Config, d: Config, configured: bool, host: Host)
    ensures HostSaysCompatible(a, d, configured, host)
            <==> AllKnown(d, host) && a.settings == d.settings && SamePublication(a, d, host)
                 && AccessSuffices(a, d, configured)
  {
    hide HostSaysCompatible, Unknown, TopologyOf, Smaller, AllKnown, SamePublication, AccessSuffices;
    CompatibleExactly(a, d, configured, host);
    KnownExactly(d, host);
    PublicationExactly(a, d, configured, host);
    SmallerExactly(a, d, configured);
  }

  /** And so the container's, for a service that was set up on Linux with recorded names. */
  lemma {:induction false} ContainerExactly(a: Config, d: Config, host: Host)
    requires host.linux && !host.beforeSetup && host.resolved.Some?
    ensures ContainerSaysCompatible(d, true, Export(a, host))
            <==> AllKnown(d, host) && a.settings == d.settings && SamePublication(a, d, host)
                 && AccessSuffices(a, d, true)
  {
    hide HostSaysCompatible, ContainerSaysCompatible, AllKnown, SamePublication, AccessSuffices;
    HostAndContainerAgree(a, d, host);
    MayStayExactly(a, d, true, host);
  }
}
