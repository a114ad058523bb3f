/** The two conversions and the validation as they are written: settings assigned one
    by one, fields filled step by step, devices appended. */
module ConfigConversion {
  import opened Wrappers
  import opened Text
  import opened Numbers
  import opened ConfigSpec
  import opened ConfigRules
  import opened InventoryParsing

  // ---------------------------------------------------------------- typed to flat

  method AssignHost(p: Platform, defaults: Values, cfg: Config) returns (v: Values)
    ensures v == PutHost(p, defaults, cfg)
  {
    hide ShowInt, ShowBool, ShowMode, PutRunner, PutCredimi, PutObservability, PutStorage, PutAndroid, PutExposure;
    v := defaults;
    v := v[Host(KSchema) := ShowInt(cfg.schema)];
    v := PutCredimi(v, cfg.credimi);
    v := PutRunner(v, cfg.runner);
    v := v[Host(KTemporal) := cfg.temporal];
    v := AssignServer(p, v, cfg.server);
    v := PutObservability(PutStorage(p, v, cfg.storage), cfg.observability);
    v := PutExposure(PutAndroid(v, cfg.android), cfg.exposure);
  }

  /** An address that cannot be split leaves the defaults. */
  method AssignServer(p: Platform, before: Values, s: Server) returns (v: Values)
    ensures v == PutServer(p, before, s)
  {
    hide ShowBool;
    v := before[Host(KServer(SToken)) := s.token];
    v := v[Host(KServer(SOpenBrowser)) := ShowBool(s.openBrowser)];
    v := v[Host(KServer(SHeaderTimeout)) := p.showDuration(s.headerTimeout)];
    v := v[Host(KServer(SShutdownTimeout)) := p.showDuration(s.shutdownTimeout)];
    var api := p.split(s.apiListen);
    if api.Some? {
      v := v[Host(KServer(SRunnerHost)) := api.value.host];
      v := v[Host(KServer(SRunnerPort)) := api.value.port];
    }
    var dashboard := p.split(s.dashboardListen);
    if dashboard.Some? {
      v := v[Host(KServer(SDashboardHost)) := dashboard.value.host];
      v := v[Host(KServer(SDashboardPort)) := dashboard.value.port];
    }
  }

  method AssignDevice(p: Platform, before: Values, i: nat, d: Device) returns (v: Values)
    ensures v == PutDevice(p, before, i, d)
  {
    hide ShowBool, ShowInt, TypeName, WiFiSerial, PutEmulator, PutRedroid;
    v := before[Dev(i, ID) := d.id];
    v := v[Dev(i, NAME) := d.name];
    v := v[Dev(i, DESCRIPTION) := d.description];
    v := v[Dev(i, TYPE) := TypeName(d.kind)];
    v := v[Dev(i, ENABLED) := ShowBool(d.enabled)];
    match d.kind {
      case Physical(transport, serial, ip, port) =>
        v := v[Dev(i, MODE) := transport];
        if transport == "wifi" {
          v := v[Dev(i, WIFI_IP) := ip];
          v := v[Dev(i, WIFI_PORT) := port];
          v := v[Dev(i, SERIAL) := WiFiSerial(ip, port)];
        } else if transport == "usb" {
          v := v[Dev(i, SERIAL) := serial];
        }
      case AVD(e) => v := PutEmulator(v, i, e);
      case RedroidOf(r) => v := PutRedroid(p, v, i, r);
      case Simulator(udid) =>
        v := v[Dev(i, MODE) := "no_device"];
        v := v[Dev(i, IOS_UDID) := udid];
    }
  }

  method ValuesFromTypedConfig(p: Platform, defaults: Values, cfg: Config) returns (v: Values)
    ensures v == ValuesFromTyped(p, defaults, cfg)
  {
    hide PutHost, PutDevice, ShowNat;
    v := AssignHost(p, defaults, cfg);
    v := v[Count := ShowNat(|cfg.devices|)];
    ghost var host := v;
    for i := 0 to |cfg.devices|
      invariant v == PutDevices(p, host, cfg.devices[..i])
    {
      assert cfg.devices[..i + 1][..i] == cfg.devices[..i];
      v := AssignDevice(p, v, i + 1, cfg.devices[i]);
    }
    assert cfg.devices[..|cfg.devices|] == cfg.devices;
  }

  // ---------------------------------------------------------------- flat to typed

  lemma {:induction false} FailsEarly(p: Platform, ts: seq<Target>, i: nat)
    requires i <= |ts| && TypedDevices(p, ts[..i]) == None
    ensures TypedDevices(p, ts) == None
  {
    hide TypedDevice;
    if i < |ts| {
      assert ts[..|ts| - 1][..i] == ts[..i];
      FailsEarly(p, ts[..|ts| - 1], i);
    } else {
      assert ts[..i] == ts;
    }
  }

  method ConvertDevices(p: Platform, v: Values) returns (devices: Option<Devices>)
    ensures devices == ReadDevices(p, v)
  {
    hide TypedDevice, Trim, ReadInventory;
    var count := Trim(Get(v, Count));
    if count == "" || count == "0" { return Some([]); }
    var inventory := ParseRunnerRuntimeConfig(v);
    if inventory.None? { return None; }
    var ts := inventory.value.targets;
    var done: seq<Device> := [];
    for i := 0 to |ts|
      invariant TypedDevices(p, ts[..i]) == Some(done)
    {
      assert ts[..i + 1][..i] == ts[..i];
      var d := TypedDevice(p, ts[i]);
      if d.None? {
        FailsEarly(p, ts, i + 1);
        return None;
      }
      done := done + [d.value];
    }
    assert ts[..|ts|] == ts;
    devices := Some(done);
  }

  const BOOTSTRAP := Config(1, Runner("", "", "", "", false), Credimi("", "user", "", ""), "",
                            Server("0.0.0.0:8050", "0.0.0.0:8051", true, "", 0, 0),
                            Exposure("quick_tunnel", "", "", "", ""),
                            Observability(false, "", ""), Storage("", "", 0),
                            Android("", "", "", "", "", "", "", ""), [])

  method TypedConfigFromValues(p: Platform, v: Values) returns (r: Option<Config>)
    ensures r == TypedFromValues(p, v)
  {
    hide ReadSchema, ReadRunner, ReadCredimi, ReadServer, ReadStorage, ReadObservability, ReadAndroid, ReadExposure;
    hide ReadDevices, ApplyDefaults;
    var cfg := BOOTSTRAP;
    var schema := ReadSchema(v);
    if schema.None? { return None; }
    var runner := ReadRunner(v);
    if runner.None? { return None; }
    cfg := cfg.(schema := schema.value, runner := runner.value, credimi := ReadCredimi(v), temporal := H(v, KTemporal));
    var server := ReadServer(p, v);
    if server.None? { return None; }
    var storage := ReadStorage(p, v);
    if storage.None? { return None; }
    var observability := ReadObservability(v);
    if observability.None? { return None; }
    cfg := cfg.(server := server.value, storage := storage.value, observability := observability.value);
    cfg := cfg.(android := ReadAndroid(v), exposure := ReadExposure(v));
    var devices := ConvertDevices(p, v);
    if devices.None? { return None; }
    cfg := cfg.(devices := devices.value);
    r := ApplyDefaults(p, cfg);
  }

  // ---------------------------------------------------------------- validation

  ghost predicate Meets(devices: seq<Device>, k: nat, d: Device)
    requires k <= |devices|
  {
    exists i :: 0 <= i < k && Conflict(devices[i], d)
  }

  /** What the sets and counters hold after k devices. */
  ghost predicate Collected(devices: seq<Device>, k: nat, ids: set<string>, names: set<string>, endpoints: set<string>,
                            emulators: int, simulators: int)
    requires k <= |devices|
  {
    && (forall s :: s in ids <==> exists i :: 0 <= i < k && devices[i].id == s)
    && (forall s :: s in names <==> exists i :: 0 <= i < k && devices[i].name == s)
    && (forall s :: s in endpoints <==> exists i :: 0 <= i < k && Endpoint(devices[i].kind) == Some(s))
    && 0 <= emulators <= 1 && 0 <= simulators <= 1
    && (emulators == 1 <==> exists i :: 0 <= i < k && devices[i].kind.AVD?)
    && (simulators == 1 <==> exists i :: 0 <= i < k && devices[i].kind.Simulator?)
  }

  lemma {:induction false} MeetsExactly(devices: seq<Device>, k: nat, ids: set<string>, names: set<string>,
                                        endpoints: set<string>, emulators: int, simulators: int, d: Device)
    requires k <= |devices| && Collected(devices, k, ids, names, endpoints, emulators, simulators)
    ensures Meets(devices, k, d)
            <==> d.id in ids || d.name in names || (Endpoint(d.kind).Some? && Endpoint(d.kind).value in endpoints)
                 || (d.kind.AVD? && emulators == 1) || (d.kind.Simulator? && simulators == 1)
  {
    hide Endpoint;
    if i :| 0 <= i < k && devices[i].id == d.id { assert Conflict(devices[i], d); }
    if i :| 0 <= i < k && devices[i].name == d.name { assert Conflict(devices[i], d); }
    if i :| 0 <= i < k && Endpoint(d.kind).Some? && Endpoint(devices[i].kind) == Endpoint(d.kind) {
      assert Conflict(devices[i], d);
    }
    if i :| 0 <= i < k && d.kind.AVD? && devices[i].kind.AVD? { assert Conflict(devices[i], d); }
    if i :| 0 <= i < k && d.kind.Simulator? && devices[i].kind.Simulator? { assert Conflict(devices[i], d); }
  }

  lemma {:induction false} OneMore(c: Checks, runnerID: string, devices: seq<Device>, k: nat)
    requires k < |devices|
    ensures DevicesAccepted(c, runnerID, devices[..k + 1])
            <==> DevicesAccepted(c, runnerID, devices[..k]) && DeviceAccepted(c, runnerID, devices[k])
                 && !Meets(devices, k, devices[k])
    ensures DevicesAccepted(c, runnerID, devices) ==> DevicesAccepted(c, runnerID, devices[..k + 1])
  {
    hide DeviceAccepted, Conflict;
    var some, more := devices[..k], devices[..k + 1];
    assert more == some + [devices[k]];
    assert DevicesAccepted(c, runnerID, more) ==> DeviceAccepted(c, runnerID, more[k]);
    if DevicesAccepted(c, runnerID, more) {
      forall i | 0 <= i < k ensures !Conflict(devices[i], devices[k]) { assert !Conflict(more[i], more[k]); }
    }
  }

  method ValidateDevices(c: Checks, runnerID: string, devices: seq<Device>) returns (ok: bool)
    ensures ok == DevicesAccepted(c, runnerID, devices)
  {
    hide DevicesAccepted, DeviceAccepted, Endpoint, Meets;
    var ids: set<string>, names: set<string>, endpoints: set<string> := {}, {}, {};
    var emulators, simulators := 0, 0;
    assert DevicesAccepted(c, runnerID, devices[..0]) by { NoDevices(c, runnerID); }
    for k := 0 to |devices|
      invariant DevicesAccepted(c, runnerID, devices[..k])
      invariant Collected(devices, k, ids, names, endpoints, emulators, simulators)
    {
      var d := devices[k];
      OneMore(c, runnerID, devices, k);
      MeetsExactly(devices, k, ids, names, endpoints, emulators, simulators, d);
      if !DeviceAccepted(c, runnerID, d) { return false; }
      var endpoint := Endpoint(d.kind);
      if d.id in ids || d.name in names || (endpoint.Some? && endpoint.value in endpoints)
         || (d.kind.AVD? && emulators == 1) || (d.kind.Simulator? && simulators == 1) { return false; }
      ids, names := ids + {d.id}, names + {d.name};
      if endpoint.Some? { endpoints := endpoints + {endpoint.value}; }
      if d.kind.AVD? { emulators := emulators + 1; }
      if d.kind.Simulator? { simulators := simulators + 1; }
    }
    assert devices[..|devices|] == devices;
    ok := true;
  }

  lemma NoDevices(c: Checks, runnerID: string)
    ensures DevicesAccepted(c, runnerID, [])
  {
  }

  method ValidateForPlatform(p: Platform, c: Checks, cfg: Config) returns (ok: bool)
    ensures ok == Accepted(p, c, cfg)
  {
    hide RunnerAccepted, CredimiAccepted, Required, ServerAccepted, StorageAccepted, ExposureAccepted, AndroidAccepted;
    hide DevicesAccepted;
    if cfg.schema != 1 { return false; }
    if !RunnerAccepted(cfg.runner) || !CredimiAccepted(c, cfg.credimi) { return false; }
    if !Required(cfg.temporal) || !ServerAccepted(p, cfg.server) || !StorageAccepted(c, cfg.storage) { return false; }
    if !ExposureAccepted(c, cfg.exposure) || !AndroidAccepted(cfg.android) { return false; }
    ok := ValidateDevices(c, cfg.runner.id, cfg.devices);
  }
}
