/** Which part of the system a changed setting concerns, what the dashboard remembers
    of changes that are not applied yet, and how it applies them. */
module PendingSpec {
  import opened Text

  type Values = map<string, string>

  function Get(v: Values, key: string): string { if key in v then v[key] else "" }

  datatype Class = SavedOnly | RuntimeReconcile | RuntimeRestart | ServiceRestart | CredimiUpdate

  datatype ConfigDiff = ConfigDiff(keys: seq<string>, classes: seq<Class>)

  const NO_DIFF := ConfigDiff([], [])

  // ---------------------------------------------------------------- fields

  predicate StartsWith(s: string, prefix: string) { prefix <= s }
  predicate EndsWith(s: string, suffix: string) { |suffix| <= |s| && s[|s| - |suffix|..] == suffix }

  predicate DeviceKey(key: string) { StartsWith(key, "CREDIMI_DEVICE_") && !EndsWith(key, "_COUNT") }

  const MODE_KEY := "CREDIMI_SERVICE_MODE"

  /** The exposure mode as it is read from the settings. */
  function ModeOf(v: Values): string {
    match Get(v, MODE_KEY)
    case "cloudflare-managed" => "named_tunnel"
    case "manual" => "manual"
    case _ => "quick_tunnel"
  }

  predicate RuntimeField(key: string) {
    key in {"CLOUDFLARE_TUNNEL_TOKEN", "CREDIMI_URL", "CREDIMI_INTERNAL_ADMIN_KEY", "CREDIMI_RUNNER_ID",
            "CREDIMI_RUNNER_NAME",
            "CREDIMI_RUNNER_ORGANIZATION", "CREDIMI_RUNNER_PUBLISHED", "CREDIMI_SERVICE_MODE", "CREDIMI_USER_API_KEY",
            "OTEL_EXPORTER_OTLP_ENDPOINT", "OTEL_ENABLED", "OTEL_SERVICE_NAME", "TEMPORAL_ADDRESS", "CREDIMI_TEMP_DIR",
            "ADB_SCREEN_RECORD_SIZE"}
  }

  predicate CredimiField(key: string) {
    key in {"CREDIMI_URL", "CREDIMI_RUNNER_DESCRIPTION", "CREDIMI_RUNNER_ID", "CREDIMI_RUNNER_NAME",
            "CREDIMI_RUNNER_ORGANIZATION",
            "CREDIMI_RUNNER_PUBLISHED", "CREDIMI_SERVICE_MODE", "RUNNER_DOMAIN", "RUNNER_PORT", "RUNNER_PUBLIC_PORT",
            "RUNNER_PUBLIC_URL"}
  }

  predicate ListenerField(key: string) { key == "RUNNER_HOST" || key == "RUNNER_PORT" }

  predicate PersistentField(key: string) {
    key in {"DASHBOARD_HOST", "DASHBOARD_PORT", "SERVER_READ_HEADER_TIMEOUT", "SERVER_SHUTDOWN_TIMEOUT"}
  }

  /** The class that one changed key brings.  No field asks for a runtime restart. */
  predicate Triggers(key: string, c: Class, known: seq<string>, darwin: bool) {
    match c
    case RuntimeReconcile => DeviceKey(key) || (key in known && (RuntimeField(key) || (darwin && ListenerField(key))))
    case CredimiUpdate => DeviceKey(key) || (key in known && CredimiField(key))
    case ServiceRestart => darwin && key in known && PersistentField(key)
    case _ => false
  }

  // ---------------------------------------------------------------- differences

  predicate Changed(before: Values, after: Values, key: string) { Get(before, key) != Get(after, key) }

  predicate Tracked(known: seq<string>, key: string) { key in known || DeviceKey(key) }

  function Filter(keys: seq<string>, before: Values, after: Values): seq<string> {
    if keys == [] then []
    else
      Filter(keys[..|keys| - 1], before, after)
      + if Changed(before, after, keys[|keys| - 1]) then [keys[|keys| - 1]] else []
  }

  function ChangedDeviceKeys(before: Values, after: Values): set<string> {
    set key | key in before.Keys + after.Keys && DeviceKey(key) && Changed(before, after, key)
  }

  ghost function Sorted(s: set<string>): (r: seq<string>)
    ensures Ascending(r) && forall x :: x in r <==> x in s
  {
    if s == {} then []
    else
      var x :| x in s;
      InsertKeepsOrder(Sorted(s - {x}), x);
      InsertAdds(Sorted(s - {x}), x);
      Insert(Sorted(s - {x}), x)
  }

  predicate Wants(keys: seq<string>, c: Class, known: seq<string>, darwin: bool) {
    exists key :: key in keys && Triggers(key, c, known, darwin)
  }

  function Only(wanted: bool, c: Class): seq<Class> { if wanted then [c] else [] }

  /** `service`: the service that runs is not compatible with the new configuration. */
  function ClassesOf(keys: seq<string>, known: seq<string>, darwin: bool, service: bool): seq<Class> {
    var classes := Only(Wants(keys, ServiceRestart, known, darwin) || (!darwin && service), ServiceRestart)
                   + Only(Wants(keys, RuntimeRestart, known, darwin), RuntimeRestart)
                   + Only(Wants(keys, RuntimeReconcile, known, darwin), RuntimeReconcile)
                   + Only(Wants(keys, CredimiUpdate, known, darwin), CredimiUpdate);
    if keys == [] || classes == [] then [SavedOnly] else classes
  }

  ghost function Diff(known: seq<string>, before: Values, after: Values, darwin: bool, service: bool): ConfigDiff {
    var keys := Filter(known, before, after) + Sorted(ChangedDeviceKeys(before, after));
    ConfigDiff(keys, ClassesOf(keys, known, darwin, service))
  }

  // ---------------------------------------------------------------- merging

  function AddAll<T(==)>(into: seq<T>, more: seq<T>): seq<T> {
    if more == [] then into
    else
      var before := AddAll(into, more[..|more| - 1]);
      if more[|more| - 1] in before then before else before + [more[|more| - 1]]
  }

  function Merge(left: ConfigDiff, right: ConfigDiff): ConfigDiff {
    ConfigDiff(AddAll(AddAll([], left.keys), right.keys), AddAll(AddAll([], left.classes), right.classes))
  }

  function Without(classes: seq<Class>, c: Class): seq<Class> {
    if classes == [] then []
    else Without(classes[..|classes| - 1], c) + if classes[|classes| - 1] != c then [classes[|classes| - 1]] else []
  }

  function WithoutService(d: ConfigDiff): ConfigDiff { d.(classes := Without(d.classes, ServiceRestart)) }

  function ForPlatform(d: ConfigDiff, darwin: bool): ConfigDiff { if darwin then d else WithoutService(d) }

  // ---------------------------------------------------------------- applying

  predicate NeedsRuntimeApply(d: ConfigDiff) {
    RuntimeReconcile in d.classes || RuntimeRestart in d.classes || CredimiUpdate in d.classes
  }

  /** An exposure setting that the mode in use does not read. */
  predicate InactiveKey(key: string, mode: string) {
    if key == "RUNNER_PUBLIC_URL" || key == "RUNNER_PUBLIC_PORT" then mode != "manual"
    else key == "RUNNER_DOMAIN" && mode != "named_tunnel"
  }

  predicate EndpointKey(key: string) { key == "RUNNER_PUBLIC_URL" || key == "RUNNER_PUBLIC_PORT" }

  predicate InventoryKey(key: string, mode: string) {
    StartsWith(key, "CREDIMI_DEVICE_") || key == "CREDIMI_RUNNER_DESCRIPTION" || InactiveKey(key, mode)
  }

  predicate InactiveOnly(d: ConfigDiff, mode: string) {
    d.keys != [] && forall key :: key in d.keys ==> InactiveKey(key, mode)
  }
  predicate EndpointOnly(d: ConfigDiff, mode: string) {
    mode == "manual" && d.keys != [] && forall key :: key in d.keys ==> EndpointKey(key)
  }
  predicate InventoryOnly(d: ConfigDiff, mode: string) {
    d.keys != [] && forall key :: key in d.keys ==> InventoryKey(key, mode)
  }

  datatype How = Reconcile | ApplyEndpoint | ApplyInventory
  datatype Action = ServiceFirst | NothingToApply | RuntimeStopped | NotLoaded | NobodyListens | Tried(how: How,
      ok: bool)

  /** What the outside answers during one call. */
  datatype Answers = Answers(restartRequired: bool, desiredRunning: bool, loaded: bool, applied: bool)

  /** `current`: the saved settings; `base`: those saved when pending was last cleared;
      `applied` and `built`: those last made active, and last used to build a generation. */
  datatype Server = Server(current: Values, pending: ConfigDiff, base: Values, applied: Values, built: Values)

  function Start(v: Values): Server { Server(v, NO_DIFF, v, v, v) }

  function ChooseHow(pending: ConfigDiff, mode: string): How {
    if EndpointOnly(pending, mode) then ApplyEndpoint else if InventoryOnly(pending, mode) then ApplyInventory
    else Reconcile
  }

  function Decide(pending: ConfigDiff, mode: string, a: Answers, darwin: bool): Action {
    var stripped := if darwin then WithoutService(pending) else pending;
    if a.restartRequired then ServiceFirst
    else if !NeedsRuntimeApply(stripped) then NothingToApply
    else if !a.desiredRunning then RuntimeStopped
    else if !a.loaded then NotLoaded
    else if InactiveOnly(stripped, mode) then NobodyListens
    else Tried(ChooseHow(stripped, mode), a.applied)
  }

  predicate Clears(action: Action) { action.NothingToApply? || action.NobodyListens? || (action.Tried? && action.ok) }

  function ApplySaved(s: Server, d: ConfigDiff, a: Answers, darwin: bool): Server {
    var pending := Merge(s.pending, ForPlatform(d, darwin));
    var action := Decide(pending, ModeOf(s.current), a, darwin);
    var stripped := if darwin && !action.ServiceFirst? then WithoutService(pending) else pending;
    if Clears(action) then
      s.(pending := NO_DIFF, base := s.current,
         applied := if action.Tried? then s.current else s.applied,
         built := if action.Tried? && action.how.Reconcile? then s.current else s.built)
    else s.(pending := stripped)
  }

  /** One save: the settings change, then the difference is applied or remembered. */
  ghost function Save(known: seq<string>, s: Server, next: Values, service: bool, a: Answers, darwin: bool): Server {
    ApplySaved(s.(current := next), Diff(known, s.current, next, darwin, service), a, darwin)
  }
}
