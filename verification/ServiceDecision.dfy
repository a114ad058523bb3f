/** The compatibility decision as it is computed: loops over devices and names, a set
    of paths that is sorted at the end. */
module ServiceDecision {
  import opened Wrappers
  import opened Text
  import opened ServiceCompat

  method ProjectNeeds(configured: bool, devices: seq<Device>) returns (needs: Needs)
    ensures needs == NeedsOf(configured, devices)
  {
    hide TransportOf, KnownHostsOf, Insert, Ascending;
    var hostADB, usb, emulator := !configured, false, false;
    var knownHosts: set<string> := {};
    for k := 0 to |devices|
      invariant var n := NeedsOf(configured, devices[..k]);
                hostADB == n.hostADB && usb == n.usb && emulator == n.emulator
      invariant forall s :: s in knownHosts <==> s != "" && exists d :: d in devices[..k] && KnownHostsOf(d) == s
    {
      var d := devices[k];
      assert devices[..k + 1] == devices[..k] + [d];
      assert devices[..k + 1][..k] == devices[..k];
      if TransportOf(d) == "usb" { usb, hostADB := true, true; }
      else if TransportOf(d) == "wifi" { hostADB := true; }
      if d.enabled && d.kind.Emulator? { emulator := true; }
      var path := KnownHostsOf(d);
      if path != "" { knownHosts := knownHosts + {path}; }
    }
    assert devices[..|devices|] == devices;
    var sorted := Sort(knownHosts);
    KnownHostsAscend(configured, devices);
    SortedIsUnique(sorted, NeedsOf(configured, devices).knownHosts);
    needs := Needs(hostADB, usb, emulator, sorted);
  }

  method Project(cfg: Config, configured: bool, host: Host) returns (p: Projection)
    ensures p == ProjectionOf(cfg, configured, host)
  {
    hide NeedsOf, TopologyOf;
    var needs := ProjectNeeds(configured, cfg.devices);
    p := Projection(TopologyOf(cfg, configured, host), needs);
  }

  method IsStringSetSuperset(have: seq<string>, want: seq<string>) returns (r: bool)
    ensures r == Superset(have, want)
  {
    for k := 0 to |want|
      invariant forall i :: 0 <= i < k ==> want[i] in have
    {
      if want[k] !in have { return false; }
    }
    r := true;
  }

  method ServiceHostLocalityUnknown(cfg: Config, host: Host) returns (unknown: bool)
    ensures unknown == Unknown(cfg, host)
  {
    hide LocalityOf, Dependencies;
    if host.resolved.None? || !host.linux { return false; }
    var names := Dependencies(cfg);
    for k := 0 to |names|
      invariant forall i :: 0 <= i < k ==> LocalityOf(names[i], host).known
    {
      if !LocalityOf(names[k], host).known { return true; }
    }
    unknown := false;
  }

  method ServiceConfigsCompatibleWithHost(
      applied: Config, desired: Config, configured: bool, host: Host) returns (r: bool)
    ensures r == HostSaysCompatible(applied, desired, configured, host)
  {
    hide ProjectionOf, Unknown, Superset;
    var unknown := ServiceHostLocalityUnknown(desired, host);
    if unknown { return false; }
    var a := Project(applied, configured, host);
    var d := Project(desired, configured, host);
    if a.needs.hostADB { d := d.(needs := d.needs.(hostADB := true)); }
    if a.needs.usb { d := d.(needs := d.needs.(usb := true)); }
    if a.needs.emulator { d := d.(needs := d.needs.(emulator := true)); }
    var superset := IsStringSetSuperset(a.needs.knownHosts, d.needs.knownHosts);
    if !superset { return false; }
    d := d.(needs := d.needs.(knownHosts := a.needs.knownHosts));
    r := Fingerprint(a) == Fingerprint(d);
  }

  /** What the container can decide on its own. */
  method ServiceConfigCompatibleWithFingerprint(desired: Config, configured: bool, x: Exported) returns (r: bool)
    ensures r == ContainerSaysCompatible(desired, configured, x)
  {
    hide ProjectionOf, Unknown, Superset;
    var host := ContainerView(x);
    var unknown := ServiceHostLocalityUnknown(desired, host);
    if unknown { return false; }
    var d := Project(desired, configured, host);
    if d.topology.mode != x.mode { return false; }
    if x.needs.hostADB { d := d.(needs := d.needs.(hostADB := true)); }
    if x.needs.usb { d := d.(needs := d.needs.(usb := true)); }
    if x.needs.emulator { d := d.(needs := d.needs.(emulator := true)); }
    var superset := IsStringSetSuperset(x.needs.knownHosts, d.needs.knownHosts);
    if !superset { return false; }
    d := d.(needs := d.needs.(knownHosts := x.needs.knownHosts));
    r := Fingerprint(d) == x.fingerprint;
  }

  /** The host's own resolution of the names. */
  method ResolveServiceHostContext(cfg: Config, answer: string -> string) returns (resolved: map<string, string>)
    ensures resolved == Resolve(Dependencies(cfg), answer)
  {
    hide Dependencies;
    var names := Dependencies(cfg);
    resolved := map[];
    for k := 0 to |names|
      invariant resolved == Resolve(names[..k], answer)
    {
      assert names[..k + 1][..k] == names[..k];
      var name := Normalized(names[k].text);
      if name != "" && name != "localhost" { resolved := resolved[name := answer(name)]; }
    }
    assert names[..|names|] == names;
  }
}
