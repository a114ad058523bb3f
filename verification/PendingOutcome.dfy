/** What becomes of a saved change, spelled out in the changed settings: which class it has, what
    is done about it, and what is remembered. */
module PendingOutcome {
  import opened Text
  import opened PendingSpec
  import opened PendingProofs

  // ---------------------------------------------------------------- classes of a change

  predicate OfDevice(k: string) { "CREDIMI_DEVICE_" <= k && !(|k| >= 6 && k[|k| - 6..] == "_COUNT") }

  /** A setting that the running generation is built from. */
  predicate ForGeneration(k: string, darwin: bool) {
    || k == "CREDIMI_URL" || k == "CREDIMI_USER_API_KEY" || k == "CREDIMI_INTERNAL_ADMIN_KEY" || k == "TEMPORAL_ADDRESS"
    || k == "CREDIMI_RUNNER_ID" || k == "CREDIMI_RUNNER_NAME" || k == "CREDIMI_RUNNER_ORGANIZATION"
    || k == "CREDIMI_RUNNER_PUBLISHED" || k == "CREDIMI_SERVICE_MODE" || k == "CLOUDFLARE_TUNNEL_TOKEN"
    || k == "OTEL_ENABLED" || k == "OTEL_SERVICE_NAME" || k == "OTEL_EXPORTER_OTLP_ENDPOINT"
    || k == "CREDIMI_TEMP_DIR" || k == "ADB_SCREEN_RECORD_SIZE"
    || (darwin && (k == "RUNNER_HOST" || k == "RUNNER_PORT"))
  }

  /** A setting that is registered. */
  predicate ForRegistration(k: string) {
    || k == "CREDIMI_URL" || k == "CREDIMI_RUNNER_ID" || k == "CREDIMI_RUNNER_NAME"
       || k == "CREDIMI_RUNNER_ORGANIZATION"
    || k == "CREDIMI_RUNNER_DESCRIPTION" || k == "CREDIMI_RUNNER_PUBLISHED" || k == "CREDIMI_SERVICE_MODE"
    || k == "RUNNER_PUBLIC_URL" || k == "RUNNER_PUBLIC_PORT" || k == "RUNNER_DOMAIN" || k == "RUNNER_PORT"
  }

  predicate ForNativeService(k: string) {
    k == "DASHBOARD_HOST" || k == "DASHBOARD_PORT" || k == "SERVER_READ_HEADER_TIMEOUT"
    || k == "SERVER_SHUTDOWN_TIMEOUT"
  }

  predicate Differs(before: Values, after: Values, k: string) {
    (if k in before then before[k] else "") != (if k in after then after[k] else "")
  }

  ghost predicate ChangedSome(known: seq<string>, before: Values, after: Values, wanted: string -> bool) {
    exists k :: k in known && Differs(before, after, k) && wanted(k)
  }

  ghost predicate ChangedDevice(before: Values, after: Values) { exists k :: OfDevice(k) && Differs(before, after, k) }

  lemma DeviceExactly(k: string)
    ensures DeviceKey(k) <==> OfDevice(k)
  {
  }

  lemma {:induction false} TriggersExactly(k: string, known: seq<string>, darwin: bool)
    ensures Triggers(k, RuntimeReconcile, known, darwin) <==> OfDevice(k) || (k in known && ForGeneration(k, darwin))
    ensures Triggers(k, CredimiUpdate, known, darwin) <==> OfDevice(k) || (k in known && ForRegistration(k))
    ensures Triggers(k, ServiceRestart, known, darwin) <==> darwin && k in known && ForNativeService(k)
    ensures !Triggers(k, RuntimeRestart, known, darwin) && !Triggers(k, SavedOnly, known, darwin)
  {
    hide DeviceKey, OfDevice;
    DeviceExactly(k);
  }

  /** The classes of a difference: for the generation and for the registration by the changed keys, for
      the service by those of a native service or by the answer about compatibility, and "saved only"
      if there is no other. */
  lemma {:induction false} ClassesExactly(known: seq<string>, before: Values, after: Values, darwin: bool,
                                          service: bool)
    ensures var d := Diff(known, before, after, darwin, service); var changed := d.keys != [];
            && (RuntimeReconcile in d.classes <==>
                  ChangedDevice(before, after) || ChangedSome(known, before, after, k => ForGeneration(k, darwin)))
            && (CredimiUpdate in d.classes <==>
                  ChangedDevice(before, after) || ChangedSome(known, before, after, ForRegistration))
            && (ServiceRestart in d.classes <==>
                  changed && if darwin then ChangedSome(known, before, after, ForNativeService) else service)
            && RuntimeRestart !in d.classes
            && (SavedOnly in d.classes <==> d.classes == [SavedOnly])
            && (d.classes == [SavedOnly] <==>
                  RuntimeReconcile !in d.classes && CredimiUpdate !in d.classes && ServiceRestart !in d.classes)
  {
    hide Filter, Sorted, Triggers, ForGeneration, ForRegistration, ForNativeService, OfDevice, DeviceKey;
    hide ChangedDeviceKeys;
    var d := Diff(known, before, after, darwin, service);
    DiffKeys(known, before, after, darwin, service);
    forall k ensures Changed(before, after, k) <==> Differs(before, after, k) { }
    forall k ensures DeviceKey(k) <==> OfDevice(k) { DeviceExactly(k); }
    forall k
      ensures Triggers(k, RuntimeReconcile, known, darwin) <==> OfDevice(k) || (k in known && ForGeneration(k, darwin))
      ensures Triggers(k, CredimiUpdate, known, darwin) <==> OfDevice(k) || (k in known && ForRegistration(k))
      ensures Triggers(k, ServiceRestart, known, darwin) <==> darwin && k in known && ForNativeService(k)
      ensures !Triggers(k, RuntimeRestart, known, darwin) && !Triggers(k, SavedOnly, known, darwin)
    {
      TriggersExactly(k, known, darwin);
    }
    var r, c := Wants(d.keys, RuntimeReconcile, known, darwin), Wants(d.keys, CredimiUpdate, known, darwin);
    var s := Wants(d.keys, ServiceRestart, known, darwin);
    assert !Wants(d.keys, RuntimeRestart, known, darwin);
    assert r <==> ChangedDevice(before, after) || ChangedSome(known, before, after, k => ForGeneration(k, darwin));
    assert c <==> ChangedDevice(before, after) || ChangedSome(known, before, after, ForRegistration);
    assert s <==> darwin && ChangedSome(known, before, after, ForNativeService);
  }

  // ---------------------------------------------------------------- what is done

  /** A key is accumulated: it was pending, or has changed now. */
  predicate Accumulated(s: Server, d: ConfigDiff, k: string) { k in s.pending.keys || k in d.keys }

  /** Something is accumulated for the generation or the registration. */
  predicate Heavy(s: Server, d: ConfigDiff) {
    || RuntimeReconcile in s.pending.classes || RuntimeReconcile in d.classes
    || RuntimeRestart in s.pending.classes || RuntimeRestart in d.classes
    || CredimiUpdate in s.pending.classes || CredimiUpdate in d.classes
  }

  function Service(s: Server): string { if "CREDIMI_SERVICE_MODE" in s.current then s.current["CREDIMI_SERVICE_MODE"]
                                       else "" }

  /** An exposure setting that nobody listens to in this mode. */
  predicate Idle(s: Server, k: string) {
    || ((k == "RUNNER_PUBLIC_URL" || k == "RUNNER_PUBLIC_PORT") && Service(s) != "manual")
    || (k == "RUNNER_DOMAIN" && Service(s) != "cloudflare-managed")
  }

  /** The light sets, and that every accumulated key is in one. */
  predicate Endpoint(k: string) { k == "RUNNER_PUBLIC_URL" || k == "RUNNER_PUBLIC_PORT" }
  predicate OfInventory(s: Server,
                        k: string) { "CREDIMI_DEVICE_" <= k || k == "CREDIMI_RUNNER_DESCRIPTION" || Idle(s, k) }

  ghost predicate Anything(s: Server, d: ConfigDiff) { exists k :: Accumulated(s, d, k) }
  ghost predicate AllIdle(s: Server,
                          d: ConfigDiff) { Anything(s, d) && forall k :: Accumulated(s, d, k) ==> Idle(s, k) }
  ghost predicate AllEndpoint(s: Server, d: ConfigDiff) {
    Service(s) == "manual" && Anything(s, d) && forall k :: Accumulated(s, d, k) ==> Endpoint(k)
  }
  ghost predicate AllInventory(s: Server, d: ConfigDiff) {
    Anything(s, d) && forall k :: Accumulated(s, d, k) ==> OfInventory(s, k)
  }

  lemma ModeExactly(s: Server)
    ensures ModeOf(s.current) == "manual" <==> Service(s) == "manual"
    ensures ModeOf(s.current) == "named_tunnel" <==> Service(s) == "cloudflare-managed"
  {
  }

  lemma {:induction false} KeySetsExactly(s: Server, k: string)
    ensures InactiveKey(k, ModeOf(s.current)) <==> Idle(s, k)
    ensures InventoryKey(k, ModeOf(s.current)) <==> OfInventory(s, k)
    ensures EndpointKey(k) <==> Endpoint(k)
  {
    hide ModeOf, Service;
    ModeExactly(s);
  }

  /** What is accumulated, with the class for the service or without it. */
  lemma {:induction false} AccumulatedExactly(s: Server, d: ConfigDiff, darwin: bool)
    ensures var p := Merge(s.pending, ForPlatform(d, darwin)); var q := if darwin then WithoutService(p) else p;
            && (forall k :: k in p.keys <==> Accumulated(s, d, k)) && q.keys == p.keys
            && (forall c ::
                  c in p.classes <==> c in s.pending.classes || (c in d.classes && (darwin || c != ServiceRestart)))
            && (forall c :: c in q.classes <==> c in p.classes && (darwin ==> c != ServiceRestart))
            && (NeedsRuntimeApply(q) <==> Heavy(s, d)) && (p.keys == [] <==> !Anything(s, d))
  {
    hide Merge;
    var p := Merge(s.pending, ForPlatform(d, darwin));
    MergeContains(s.pending, ForPlatform(d, darwin));
    WithoutContains(d.classes, ServiceRestart);
    WithoutContains(p.classes, ServiceRestart);
    if p.keys != [] { assert p.keys[0] in p.keys; }
  }

  /** The action, over everything accumulated: the service first if it must be restarted, nothing if
      nothing concerns runtime or registration, later while the runtime is to be stopped or the
      configuration cannot be loaded, nothing if nobody listens, and otherwise it is applied:
      the lightest way that covers every accumulated key. */
  lemma {:induction false} ActionExactly(s: Server, d: ConfigDiff, a: Answers, darwin: bool)
    ensures var action := Decide(Merge(s.pending, ForPlatform(d, darwin)), ModeOf(s.current), a, darwin);
            var due := !a.restartRequired && Heavy(s, d);
            && (action.ServiceFirst? <==> a.restartRequired)
            && (action.NothingToApply? <==> !a.restartRequired && !Heavy(s, d))
            && (action.RuntimeStopped? <==> due && !a.desiredRunning)
            && (action.NotLoaded? <==> due && a.desiredRunning && !a.loaded)
            && (action.NobodyListens? <==> due && a.desiredRunning && a.loaded && AllIdle(s, d))
            && (action.Tried? <==> due && a.desiredRunning && a.loaded && !AllIdle(s, d))
            && (action.Tried? ==>
                  && action.ok == a.applied
                  && (action.how.ApplyEndpoint? <==> AllEndpoint(s, d))
                  && (action.how.ApplyInventory? <==> !AllEndpoint(s, d) && AllInventory(s, d))
                  && (action.how.Reconcile? <==> !AllEndpoint(s, d) && !AllInventory(s, d)))
  {
    hide Merge, WithoutService, ForPlatform, NeedsRuntimeApply, Heavy, InactiveKey, InventoryKey, EndpointKey, ModeOf;
    hide Idle, OfInventory, Endpoint, Service, Accumulated;
    AccumulatedExactly(s, d, darwin);
    ModeExactly(s);
    forall k
      ensures InactiveKey(k, ModeOf(s.current)) <==> Idle(s, k)
      ensures InventoryKey(k, ModeOf(s.current)) <==> OfInventory(s, k)
      ensures EndpointKey(k) <==> Endpoint(k)
    {
      KeySetsExactly(s, k);
    }
  }

  /** And what is remembered: nothing after an apply that worked or if there was nothing to do; otherwise
      everything accumulated, on Darwin without the class for the service unless the service comes
      first.  What was applied is the current configuration, and after a reconcile it is also
      the one that was built. */
  lemma {:induction false} RememberedExactly(s: Server, d: ConfigDiff, a: Answers, darwin: bool)
    ensures var r := ApplySaved(s, d, a, darwin);
            var due := !a.restartRequired && Heavy(s, d) && a.desiredRunning && a.loaded;
            var done := (!a.restartRequired && !Heavy(s, d)) || (due && (AllIdle(s, d) || a.applied));
            && r.current == s.current && r.base == (if done then s.current else s.base)
            && r.applied == (if due && !AllIdle(s, d) && a.applied then s.current else s.applied)
            && r.built == (if due && !AllIdle(s, d) && !AllEndpoint(s, d) && !AllInventory(s, d) && a.applied
                           then s.current else s.built)
            && (done ==> r.pending.keys == [] && r.pending.classes == [])
            && (!done ==>
                  && (forall k :: k in r.pending.keys <==> Accumulated(s, d, k))
                  && (forall c :: c in r.pending.classes <==>
                        (c in s.pending.classes || (c in d.classes && (darwin || c != ServiceRestart)))
                        && (darwin && !a.restartRequired ==> c != ServiceRestart)))
  {
    hide Merge, WithoutService, ForPlatform, Heavy, Decide, ModeOf, Accumulated, AllIdle, AllEndpoint, AllInventory;
    AccumulatedExactly(s, d, darwin);
    ActionExactly(s, d, a, darwin);
  }
}
