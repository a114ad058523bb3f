/** What every interleaving of the restart protocol keeps. */
module RestartProofs {
  import opened Wrappers
  import opened RestartSpec

  predicate Working(t: Task) { !t.Idle? && !t.HasRequest? && !t.Ended? }

  /** A request that was really written. */
  ghost predicate Known(w: World, req: Request) { 0 < req.id <= |w.requests| && w.requests[req.id - 1] == req }

  ghost predicate ActedAt(w: World, since: nat, f: nat, id: nat) {
    since < |w.log| && w.log[since].Acted? && w.log[since].f == f && w.log[since].id == id
  }

  /** The result is a success backed by an answer of the manager after `since`. */
  ghost predicate Backed(w: World, f: nat, since: nat, seen: nat, result: Result) {
    result.success ==>
      && since < seen < |w.log| && 0 < result.id <= |w.requests|
      && w.log[seen].Matched? && w.log[seen].f == f && w.log[seen].id == result.id
      && w.log[seen].cfg == w.requests[result.id - 1].wanted && w.log[seen].service.service == w.log[seen].cfg.service
      && result.fingerprint.Some? && result.fingerprint.value.service == w.log[seen].cfg.service
  }

  ghost predicate TaskOk(w: World, f: nat, t: Task) {
    && (t.HasRequest? || Working(t) ==> Known(w, t.req))
    && (Working(t) ==> ActedAt(w, t.since, f, t.req.id))
    && (t.Answering? ==> t.result.id == t.req.id && Backed(w, f, t.since, t.seen, t.result))
  }

  /** An entry of a written result: taken up before, and backed before. */
  ghost predicate EntryOk(w: World, k: nat)
    requires k < |w.log|
  {
    w.log[k].Wrote? ==>
      && w.log[k].since < k && ActedAt(w, w.log[k].since, w.log[k].f, w.log[k].result.id)
      && Backed(w, w.log[k].f, w.log[k].since, w.log[k].seen, w.log[k].result)
      && (w.log[k].result.success ==> w.log[k].seen < k)
  }

  ghost predicate Written(w: World, result: Result) {
    exists k :: 0 <= k < |w.log| && w.log[k].Wrote? && w.log[k].result == result
  }

  ghost predicate CheckOk(w: World, c: Check) {
    && (c.HasAsked? || c.HasResult? ==> Known(w, c.req) && c.req.id == c.asked)
    && (c.HasResult? ==> c.result.success && c.result.id == c.req.id && Written(w, c.result))
  }

  ghost predicate Sound(w: World) {
    && (w.request.Some? ==> Known(w, w.request.value) && w.request.value.id == |w.requests|)
    && (forall f :: 0 <= f < |w.tasks| ==> TaskOk(w, f, w.tasks[f]))
    && (forall k :: 0 <= k < |w.log| ==> EntryOk(w, k))
    && (w.result.Some? ==> Written(w, w.result.value))
    && (forall d :: 0 <= d < |w.checks| ==> CheckOk(w, w.checks[d]))
  }

  // ---------------------------------------------------------------- what only grows

  ghost predicate Grows(w: World, v: World) { w.requests <= v.requests && w.log <= v.log }

  lemma NextGrows(w: World, s: Step)
    ensures Grows(w, Next(w, s))
  {
  }

  lemma KnownStays(w: World, v: World, req: Request)
    requires Grows(w, v) && Known(w, req)
    ensures Known(v, req)
  {
  }

  lemma {:induction false} BackedStays(w: World, v: World, f: nat, since: nat, seen: nat, result: Result)
    requires Grows(w, v) && Backed(w, f, since, seen, result)
    ensures Backed(v, f, since, seen, result)
  {
    if result.success { assert v.log[seen] == w.log[seen] && v.requests[result.id - 1] == w.requests[result.id - 1]; }
  }

  lemma {:induction false} TaskStays(w: World, v: World, f: nat, t: Task)
    requires Grows(w, v) && TaskOk(w, f, t)
    ensures TaskOk(v, f, t)
  {
    hide Backed;
    if t.Answering? { BackedStays(w, v, f, t.since, t.seen, t.result); }
  }

  lemma {:induction false} EntryStays(w: World, v: World, k: nat)
    requires Grows(w, v) && k < |w.log| && EntryOk(w, k)
    ensures EntryOk(v, k)
  {
    hide Backed;
    assert v.log[k] == w.log[k];
    if w.log[k].Wrote? { BackedStays(w, v, w.log[k].f, w.log[k].since, w.log[k].seen, w.log[k].result); }
  }

  lemma {:induction false} WrittenStays(w: World, v: World, result: Result)
    requires Grows(w, v) && Written(w, result)
    ensures Written(v, result)
  {
    var k :| 0 <= k < |w.log| && w.log[k].Wrote? && w.log[k].result == result;
    assert v.log[k] == w.log[k];
  }

  lemma {:induction false} CheckStays(w: World, v: World, c: Check)
    requires Grows(w, v) && CheckOk(w, c)
    ensures CheckOk(v, c)
  {
    if c.HasResult? { WrittenStays(w, v, c.result); }
  }

  // ---------------------------------------------------------------- one step of one command

  lemma {:induction false} AdvanceTask(w: World, f: nat, a: Answer)
    requires f < |w.tasks| && TaskOk(w, f, w.tasks[f]) && (w.request.Some? ==> Known(w, w.request.value))
    ensures var v := Advance(w, f, a); |v.tasks| == |w.tasks| && TaskOk(v, f, v.tasks[f])
  {
    hide Known;
    var t, v := w.tasks[f], Advance(w, f, a);
    if t.Idle? || t.HasRequest? || Working(t) { KnownLater(w, v, t); }
  }

  lemma KnownLater(w: World, v: World, t: Task)
    requires v.requests == w.requests && (t.HasRequest? || Working(t) ==> Known(w, t.req))
    ensures t.HasRequest? || Working(t) ==> Known(v, t.req)
    ensures w.request.Some? && Known(w, w.request.value) ==> Known(v, w.request.value)
  {
  }

  /** At most one entry is added, and it is sound. */
  lemma {:induction false} AdvanceEntry(w: World, f: nat, a: Answer)
    requires f < |w.tasks| && TaskOk(w, f, w.tasks[f])
    ensures var v := Advance(w, f, a);
            v.requests == w.requests && v.request == w.request && v.checks == w.checks
            && (v.log == w.log || (|v.log| == |w.log| + 1 && v.log[..|w.log|] == w.log && EntryOk(v, |w.log|)))
    ensures var v := Advance(w, f, a);
            v.result == w.result || (v.result.Some? && Written(v, v.result.value))
  {
    var t, v := w.tasks[f], Advance(w, f, a);
    if t.Answering? && (a.ok || a.effect) {
      assert v.log[|w.log|] == Wrote(f, t.result, t.since, t.seen);
      BackedStays(w, v, f, t.since, t.seen, t.result);
      assert ActedAt(v, t.since, f, t.result.id);
    }
  }

  lemma OthersStay(w: World, f: nat, a: Answer, g: nat)
    requires f < |w.tasks| && g < |w.tasks| && g != f
    ensures var v := Advance(w, f, a); |v.tasks| == |w.tasks| && v.tasks[g] == w.tasks[g]
  {
  }

  lemma {:induction false} TaskStepSound(w: World, f: nat, a: Answer)
    requires Sound(w) && f < |w.tasks|
    ensures Sound(Advance(w, f, a))
  {
    hide Advance, TaskOk, EntryOk, Written, CheckOk, Known, Grows;
    var v := Advance(w, f, a);
    assert Grows(w, v) by { NextGrows(w, DoTask(f, a)); }
    AdvanceTask(w, f, a);
    AdvanceEntry(w, f, a);
    forall g | 0 <= g < |v.tasks| ensures TaskOk(v, g, v.tasks[g]) {
      if g != f {
        OthersStay(w, f, a, g);
        TaskStays(w, v, g, w.tasks[g]);
      }
    }
    forall k | 0 <= k < |w.log| ensures EntryOk(v, k) { EntryStays(w, v, k); }
    if w.result.Some? { WrittenStays(w, v, w.result.value); }
    forall d | 0 <= d < |v.checks| ensures CheckOk(v, v.checks[d]) { CheckStays(w, v, w.checks[d]); }
    if w.request.Some? { KnownStays(w, v, w.request.value); }
  }

  /** Steps of everybody else; none of them adds to the log. */
  lemma {:induction false} OtherStepSound(w: World, s: Step)
    requires Sound(w) && !s.DoTask? && !s.DoCheck?
    ensures Sound(Next(w, s))
  {
    hide TaskOk, EntryOk, Written, CheckOk, Grows;
    var v := Next(w, s);
    assert Grows(w, v) by { NextGrows(w, s); }
    forall f | 0 <= f < |w.tasks| ensures TaskOk(v, f, w.tasks[f]) { TaskStays(w, v, f, w.tasks[f]); }
    forall k | 0 <= k < |w.log| ensures EntryOk(v, k) { EntryStays(w, v, k); }
    if w.result.Some? { WrittenStays(w, v, w.result.value); }
    forall d | 0 <= d < |w.checks| ensures CheckOk(v, w.checks[d]) { CheckStays(w, v, w.checks[d]); }
    FreshOk(v);
  }

  lemma FreshOk(w: World)
    ensures forall f: nat :: TaskOk(w, f, Idle)
    ensures CheckOk(w, Asking)
  {
  }

  lemma {:induction false} CheckStepSound(w: World, d: nat, a: Answer)
    requires Sound(w) && d < |w.checks|
    ensures Sound(w.(checks := w.checks[d := Look(w, w.checks[d], a)]))
  {
    hide TaskOk, EntryOk, Written, Known;
    var v := w.(checks := w.checks[d := Look(w, w.checks[d], a)]);
    assert Grows(w, v);
    forall f | 0 <= f < |w.tasks| ensures TaskOk(v, f, w.tasks[f]) { TaskStays(w, v, f, w.tasks[f]); }
    forall k | 0 <= k < |w.log| ensures EntryOk(v, k) { EntryStays(w, v, k); }
    forall c | CheckOk(w, c) ensures CheckOk(v, c) { CheckStays(w, v, c); }
    assert CheckOk(w, v.checks[d]);
    if w.result.Some? { WrittenStays(w, v, w.result.value); }
    if w.request.Some? { KnownStays(w, v, w.request.value); }
  }

  lemma {:induction false} NextSound(w: World, s: Step)
    requires Sound(w)
    ensures Sound(Next(w, s))
  {
    hide Sound, Advance, Look;
    if s.DoTask? {
      if s.f < |w.tasks| { TaskStepSound(w, s.f, s.a); }
    } else if s.DoCheck? {
      if s.d < |w.checks| { CheckStepSound(w, s.d, s.a); }
    } else {
      OtherStepSound(w, s);
    }
  }

  lemma {:induction false} RunSound(config: Option<Config>, service: Option<Config>, steps: seq<Step>)
    ensures Sound(Run(Start(config, service), steps))
  {
    hide Next;
    if steps != [] {
      RunSound(config, service, steps[..|steps| - 1]);
      NextSound(Run(Start(config, service), steps[..|steps| - 1]), steps[|steps| - 1]);
    }
  }

  /** A success result, whoever wrote it and whatever was reconfigured meanwhile: in
      the call that wrote it, after the request was taken up, the manager found the
      service matching the very configuration that the request names. */
  lemma {:induction false} SuccessMeansMatched(
      config: Option<Config>, service: Option<Config>, steps: seq<Step>, k: nat)
    requires var w := Run(Start(config, service), steps); k < |w.log| && w.log[k].Wrote? && w.log[k].result.success
    ensures var w := Run(Start(config, service), steps); var e := w.log[k];
            && e.since < e.seen < k && ActedAt(w, e.since, e.f, e.result.id)
            && 0 < e.result.id <= |w.requests|
            && w.log[e.seen].Matched? && w.log[e.seen].f == e.f && w.log[e.seen].id == e.result.id
            && w.log[e.seen].cfg == w.requests[e.result.id - 1].wanted
            && Matches(Some(w.log[e.seen].service), w.requests[e.result.id - 1].wanted)
  {
    hide Run;
    RunSound(config, service, steps);
    assert EntryOk(Run(Start(config, service), steps), k);
  }

  /** The dashboard answers "applied" only for the request that was the latest when it
      first looked, and only if some command saw the service match a configuration with
      the service part that the current configuration has now. */
  lemma {:induction false} AppliedMeansMatched(
      config: Option<Config>, service: Option<Config>, steps: seq<Step>, d: nat, a: Answer)
    requires var w := Run(Start(config, service), steps);
             d < |w.checks| && w.checks[d].HasResult? && Look(w, w.checks[d], a) == Answered(true)
    ensures var w := Run(Start(config, service), steps); var req := w.checks[d].req;
            && Known(w, req) && req.id == w.checks[d].asked && w.config.Some?
            && w.config.value.service == req.wanted.service
            && exists j :: 0 <= j < |w.log| && w.log[j].Matched? && w.log[j].id == req.id && w.log[j].cfg == req.wanted
                           && w.log[j].service.service == w.config.value.service
  {
    hide Run;
    var w := Run(Start(config, service), steps);
    RunSound(config, service, steps);
    assert CheckOk(w, w.checks[d]);
    var k :| 0 <= k < |w.log| && w.log[k].Wrote? && w.log[k].result == w.checks[d].result;
    assert EntryOk(w, k);
    assert w.log[w.log[k].seen].Matched?;
  }

  lemma AskedIsLatest(w: World, d: nat, a: Answer)
    requires Sound(w) && d < |w.checks| && w.checks[d].Asking? && Look(w, w.checks[d], a).HasAsked?
    ensures Look(w, w.checks[d], a).req.id == |w.requests| && Look(w, w.checks[d], a).asked == |w.requests|
  {
  }

  lemma {:induction false} NextCheck(w: World, s: Step, d: nat)
    requires d < |w.checks|
    ensures d < |Next(w, s).checks|
    ensures Next(w, s).checks[d] == w.checks[d] || Next(w, s).checks[d] == Look(w, w.checks[d], s.a)
    ensures |Next(w, s).requests| == |w.requests| + (if s.DoRequest? then 1 else 0)
    ensures !s.DoRequest? ==> Next(w, s).request == w.request
  {
    hide Look;
    if s.DoTask? && s.f < |w.tasks| { AdvanceRequests(w, s.f, s.a); }
  }

  lemma AdvanceRequests(w: World, f: nat, a: Answer)
    requires f < |w.tasks|
    ensures Advance(w, f, a).requests == w.requests && Advance(w, f, a).checks == w.checks
    ensures Advance(w, f, a).request == w.request
  {
  }

  lemma {:induction false} RunKeepsSound(w: World, steps: seq<Step>)
    requires Sound(w)
    ensures Sound(Run(w, steps))
  {
    hide Next, Sound;
    if steps != [] {
      RunKeepsSound(w, steps[..|steps| - 1]);
      NextSound(Run(w, steps[..|steps| - 1]), steps[|steps| - 1]);
    }
  }

  ghost predicate NoRequest(steps: seq<Step>) { forall s :: s in steps ==> !s.DoRequest? }

  /** A check keeps the request it has read, and requests are only added. */
  lemma {:induction false} CheckRemembers(w: World, steps: seq<Step>, d: nat)
    requires d < |w.checks| && w.checks[d].HasAsked?
    ensures var v := Run(w, steps);
            && d < |v.checks| && !v.checks[d].Asking?
            && (v.checks[d].HasAsked? || v.checks[d].HasResult? ==>
                  v.checks[d].req == w.checks[d].req && v.checks[d].asked == w.checks[d].asked)
            && |w.requests| <= |v.requests|
            && (|v.requests| == |w.requests| <==> NoRequest(steps))
            && (NoRequest(steps) ==> v.request == w.request)
  {
    hide Next;
    if steps != [] {
      var n := |steps| - 1;
      CheckRemembers(w, steps[..n], d);
      NextCheck(Run(w, steps[..n]), steps[n], d);
      assert steps == steps[..n] + [steps[n]];
    }
  }

  /** The request of an "applied" answer was the latest one when the check began, and
      is still the latest one when it answers exactly if none was made in between. */
  lemma {:induction false} AppliedIsLatest(
    config: Option<Config>, service: Option<Config>, before: seq<Step>, d: nat, first: Answer, between: seq<Step>,
    last: Answer)
    requires var w := Run(Start(config, service), before); d < |w.checks| && w.checks[d].Asking?
    requires var v := Run(Next(Run(Start(config, service), before), DoCheck(d, first)), between);
             d < |v.checks| && v.checks[d].HasResult? && Look(v, v.checks[d], last) == Answered(true)
    ensures var w := Run(Start(config, service), before);
            var v := Run(Next(w, DoCheck(d, first)), between);
            && w.request == Some(v.checks[d].req) && v.checks[d].req.id == |w.requests|
            && (v.request == Some(v.checks[d].req) <==> NoRequest(between))
  {
    hide Run, Sound;
    var w := Run(Start(config, service), before);
    var u := Next(w, DoCheck(d, first));
    RunSound(config, service, before);
    NextSound(w, DoCheck(d, first));
    RunKeepsSound(u, between);
    LatestRequest(w);
    LatestRequest(Run(u, between));
    if u.checks[d].HasAsked? { CheckRemembers(u, between, d); } else { AnsweredStays(u, between, d); }
  }

  lemma LatestRequest(w: World)
    requires Sound(w)
    ensures w.request.Some? ==> w.request.value.id == |w.requests|
  {
  }

  lemma {:induction false} AnsweredStays(w: World, steps: seq<Step>, d: nat)
    requires d < |w.checks| && w.checks[d].Answered?
    ensures d < |Run(w, steps).checks| && Run(w, steps).checks[d] == w.checks[d]
  {
    hide Next;
    if steps != [] {
      var n := |steps| - 1;
      AnsweredStays(w, steps[..n], d);
      NextCheck(Run(w, steps[..n]), steps[n], d);
    }
  }

  // ---------------------------------------------------------------- acting once

  ghost predicate ActedBy(w: World, i: nat, f: nat) { i < |w.log| && w.log[i].Acted? && w.log[i].f == f }

  ghost predicate WroteAt(w: World, k: nat) { k < |w.log| && w.log[k].Wrote? }

  ghost predicate AnsweredAfter(w: World, i: nat) { exists k: nat :: i < k && WroteAt(w, k) && w.log[k].since == i }

  /** The entry of the last write. */
  ghost predicate LastWrite(w: World, m: nat) {
    WroteAt(w, m) && (forall k: nat :: m < k ==> !WroteAt(w, k)) && w.result == Some(w.log[m].result)
  }

  /** One command: it takes requests up in the order in which they were made, one at
      a time, and answers each before the next. */
  ghost predicate InOrder(w: World, f: nat, t: Task) {
    && (Working(t) ==> forall j: nat :: t.since < j ==> !ActedBy(w, j, f))
    && (t.HasRequest? || Working(t) ==> forall i: nat :: ActedBy(w, i, f) ==> w.log[i].id <= t.req.id)
    && (!t.Ended? ==> forall i: nat :: ActedBy(w, i, f) ==> (Working(t) && t.since == i) || AnsweredAfter(w, i))
  }

  /** One written result: nothing else was taken up while it was worked on. */
  ghost predicate Alone(w: World, k: nat)
    requires k < |w.log|
  {
    w.log[k].Wrote? ==> forall j: nat :: w.log[k].since < j < k ==> !ActedBy(w, j, w.log[k].f)
  }

  ghost predicate Orderly(w: World) {
    && (forall f :: 0 <= f < |w.tasks| ==> InOrder(w, f, w.tasks[f]))
    && (forall k :: 0 <= k < |w.log| ==> Alone(w, k))
    && (forall i, j, f: nat :: 0 <= i < j && ActedBy(w, i, f) && ActedBy(w, j, f) ==> w.log[i].id <= w.log[j].id)
    && (forall i, f: nat :: 0 <= i && ActedBy(w, i, f) ==> f < |w.tasks| && w.log[i].id <= |w.requests|)
    && (forall k: nat :: WroteAt(w, k) ==> exists m: nat :: k <= m && LastWrite(w, m))
  }

  lemma {:induction false} InOrderStays(w: World, v: World, g: nat, t: Task)
    requires Grows(w, v) && InOrder(w, g, t) && forall j: nat :: |w.log| <= j ==> !ActedBy(v, j, g)
    ensures InOrder(v, g, t)
  {
    forall i: nat | ActedBy(v, i, g) ensures ActedBy(w, i, g) && v.log[i] == w.log[i] { }
    forall i: nat | AnsweredAfter(w, i) ensures AnsweredAfter(v, i) {
      var k: nat :| i < k && WroteAt(w, k) && w.log[k].since == i;
      assert v.log[k] == w.log[k] && WroteAt(v, k);
    }
  }

  lemma {:induction false} AloneStays(w: World, v: World, k: nat)
    requires Grows(w, v) && k < |w.log| && Alone(w, k)
    ensures Alone(v, k)
  {
    if v.log[k].Wrote? {
      forall j: nat | v.log[k].since < j < k ensures !ActedBy(v, j, v.log[k].f) {
        assert !ActedBy(w, j, w.log[k].f) && v.log[j] == w.log[j];
      }
    }
  }

  lemma {:induction false} LastWriteStays(w: World, v: World, k: nat)
    requires forall n: nat :: WroteAt(w, n) ==> exists m: nat :: n <= m && LastWrite(w, m)
    requires Grows(w, v) && v.result == w.result && WroteAt(v, k)
    requires forall n: nat :: |w.log| <= n < |v.log| ==> !v.log[n].Wrote?
    ensures exists m: nat :: k <= m && LastWrite(v, m)
  {
    assert WroteAt(w, k);
    var m: nat :| k <= m && LastWrite(w, m);
    assert forall n: nat :: WroteAt(v, n) ==> WroteAt(w, n);
    assert LastWrite(v, m);
  }

  /** A step that adds nothing to the log. */
  lemma {:induction false} SilentStep(w: World, v: World)
    requires Orderly(w) && v.log == w.log && v.result == w.result && w.requests <= v.requests && |w.tasks| <= |v.tasks|
    requires forall f :: 0 <= f < |v.tasks| ==> InOrder(w, f, v.tasks[f])
    ensures Orderly(v)
  {
    hide InOrder, Alone, AnsweredAfter, LastWrite;
    forall f | 0 <= f < |v.tasks| ensures InOrder(v, f, v.tasks[f]) { InOrderStays(w, v, f, v.tasks[f]); }
    forall k | 0 <= k < |v.log| ensures Alone(v, k) { AloneStays(w, v, k); }
    forall i: nat, f: nat | ActedBy(v, i, f) ensures ActedBy(w, i, f) { }
    forall k: nat | WroteAt(v, k) ensures exists m: nat :: k <= m && LastWrite(v, m) { LastWriteStays(w, v, k); }
  }

  /** Taking a request up. */
  lemma {:induction false} TakeUp(w: World, f: nat, readable: bool)
    requires Orderly(w) && f < |w.tasks| && w.tasks[f].HasRequest? && w.tasks[f].req.id <= |w.requests|
    ensures Orderly(At(Noted(w, Acted(f, w.tasks[f].req.id, readable)), f, Loading(w.tasks[f].req, |w.log|)))
  {
    hide InOrder, Alone, AnsweredAfter, LastWrite;
    var req := w.tasks[f].req;
    var v := At(Noted(w, Acted(f, req.id, readable)), f, Loading(req, |w.log|));
    forall i: nat, g: nat | ActedBy(v, i, g) && i < |w.log| ensures ActedBy(w, i, g) && v.log[i] == w.log[i] { }
    assert forall i: nat :: ActedBy(w, i, f) ==> w.log[i].id <= req.id by { Earlier(w, f); }
    forall g | 0 <= g < |v.tasks| ensures InOrder(v, g, v.tasks[g]) {
      if g != f { InOrderStays(w, v, g, w.tasks[g]); } else { NowWorking(w, v, f, req); }
    }
    forall k | 0 <= k < |v.log|
      ensures Alone(v, k) { if k < |w.log| { AloneStays(w, v, k); } else { NotWritten(v, k); } }
    forall k: nat | WroteAt(v, k) ensures exists m: nat :: k <= m && LastWrite(v, m) { LastWriteStays(w, v, k); }
  }

  lemma Earlier(w: World, f: nat)
    requires f < |w.tasks| && InOrder(w, f, w.tasks[f]) && w.tasks[f].HasRequest?
    ensures forall i: nat :: ActedBy(w, i, f) ==> w.log[i].id <= w.tasks[f].req.id
  {
  }

  lemma NotWritten(w: World, k: nat)
    requires k < |w.log| && !w.log[k].Wrote?
    ensures Alone(w, k)
  {
  }

  lemma {:induction false} NowWorking(w: World, v: World, f: nat, req: Request)
    requires f < |w.tasks| && w.tasks[f] == HasRequest(req) && InOrder(w, f, w.tasks[f])
    requires |v.log| == |w.log| + 1 && v.log[..|w.log|] == w.log && v.log[|w.log|].Acted? && v.log[|w.log|].id == req.id
    ensures InOrder(v, f, Loading(req, |w.log|))
  {
    forall i: nat | ActedBy(v, i, f) && i < |w.log|
      ensures ActedBy(w, i, f) && v.log[i] == w.log[i] && AnsweredAfter(v, i)
    {
      assert v.log[i] == v.log[..|w.log|][i];
      assert ActedBy(w, i, f);
      var k: nat :| i < k && WroteAt(w, k) && w.log[k].since == i;
      assert v.log[k] == v.log[..|w.log|][k];
      assert WroteAt(v, k);
    }
  }

  /** Work on the same request goes on. */
  lemma StillWorking(w: World, f: nat, t: Task, u: Task)
    requires InOrder(w, f, t) && Working(t) && Working(u) && u.req == t.req && u.since == t.since
    ensures InOrder(w, f, u)
  {
  }

  /** A match is noted. */
  lemma {:induction false} NoteMatch(w: World, f: nat, e: Event, t: Task)
    requires Orderly(w) && f < |w.tasks| && e.Matched? && Working(w.tasks[f]) && Working(t)
    requires t.req == w.tasks[f].req && t.since == w.tasks[f].since
    ensures Orderly(At(Noted(w, e), f, t))
  {
    hide InOrder, Alone, AnsweredAfter, LastWrite;
    var v := At(Noted(w, e), f, t);
    forall i: nat, g: nat | ActedBy(v, i, g) ensures ActedBy(w, i, g) && v.log[i] == w.log[i] { }
    StillWorking(w, f, w.tasks[f], t);
    forall g | 0 <= g < |v.tasks| ensures InOrder(v, g, v.tasks[g]) { InOrderStays(w, v, g, v.tasks[g]); }
    forall k | 0 <= k < |v.log|
      ensures Alone(v, k) { if k < |w.log| { AloneStays(w, v, k); } else { NotWritten(v, k); } }
    forall k: nat | WroteAt(v, k) ensures exists m: nat :: k <= m && LastWrite(v, m) { LastWriteStays(w, v, k); }
  }

  /** A result is written. */
  lemma {:induction false} Write(w: World, f: nat, t: Task)
    requires Orderly(w) && f < |w.tasks| && w.tasks[f].Answering? && w.tasks[f].since < |w.log| && (t.Idle? || t.Ended?)
    ensures var u := w.tasks[f];
            Orderly(At(Noted(w.(result := Some(u.result)), Wrote(f, u.result, u.since, u.seen)), f, t))
  {
    hide Alone, AnsweredAfter;
    var u := w.tasks[f];
    var v := At(Noted(w.(result := Some(u.result)), Wrote(f, u.result, u.since, u.seen)), f, t);
    forall i: nat, g: nat | ActedBy(v, i, g) ensures ActedBy(w, i, g) && v.log[i] == w.log[i] { }
    forall g | 0 <= g < |v.tasks| ensures InOrder(v, g, v.tasks[g]) {
      if g != f { InOrderStays(w, v, g, w.tasks[g]); } else { NowDone(w, v, f, t); }
    }
    forall k | 0 <= k < |v.log|
      ensures Alone(v, k) { if k < |w.log| { AloneStays(w, v, k); } else { WroteAlone(w, v, f); } }
    assert LastWrite(v, |w.log|);
  }

  lemma {:induction false} NowDone(w: World, v: World, f: nat, t: Task)
    requires f < |w.tasks| && w.tasks[f].Answering? && InOrder(w, f, w.tasks[f]) && (t.Idle? || t.Ended?)
    requires var u := w.tasks[f]; v.log == w.log + [Wrote(f, u.result, u.since, u.seen)] && u.since < |w.log|
    ensures InOrder(v, f, t)
  {
    var u := w.tasks[f];
    assert WroteAt(v, |w.log|) && v.log[|w.log|].since == u.since;
    forall i: nat | ActedBy(v, i, f) ensures AnsweredAfter(v, i) {
      assert ActedBy(w, i, f);
      if i != u.since {
        var k: nat :| i < k && WroteAt(w, k) && w.log[k].since == i;
        assert WroteAt(v, k);
      }
    }
  }

  lemma {:induction false} WroteAlone(w: World, v: World, f: nat)
    requires f < |w.tasks| && w.tasks[f].Answering? && InOrder(w, f, w.tasks[f])
    requires var u := w.tasks[f]; v.log == w.log + [Wrote(f, u.result, u.since, u.seen)]
    ensures Alone(v, |w.log|)
  {
    forall j: nat | w.tasks[f].since < j < |w.log| ensures !ActedBy(v, j, f) { assert !ActedBy(w, j, f); }
  }

  lemma {:induction false} TaskStepOrderly(w: World, f: nat, a: Answer)
    requires Sound(w) && Orderly(w) && f < |w.tasks|
    ensures Orderly(Advance(w, f, a))
  {
    hide Alone, AnsweredAfter, LastWrite, Known, EntryOk, CheckOk, Written;
    var t, v := w.tasks[f], Advance(w, f, a);
    assert TaskOk(w, f, t);
    RequestBound(w, t);
    if t.HasRequest? && v.log != w.log { TakeUp(w, f, a.ok); }
    else if t.Answering? && (a.ok || a.effect) { Write(w, f, v.tasks[f]); }
    else if v.log != w.log { NoteMatch(w, f, v.log[|w.log|], v.tasks[f]); }
    else { SilentTask(w, f, a); }
  }

  lemma RequestBound(w: World, t: Task)
    requires t.HasRequest? || Working(t) ==> Known(w, t.req)
    ensures t.HasRequest? || Working(t) ==> t.req.id <= |w.requests|
  {
  }

  /** A step without an entry either goes on with the same request, or takes the
      latest one, or drops out. */
  ghost predicate Continues(w: World, t: Task, u: Task) {
    && (t.Ended? ==> u.Ended?)
    && (Working(t) ==> u.Ended? || (Working(u) && u.req == t.req && u.since == t.since))
    && (t.HasRequest? ==> u.Idle?)
    && (t.Idle? ==> u.Idle? || u.Ended? || (w.request.Some? && u == HasRequest(w.request.value)))
  }

  lemma SilentAdvance(w: World, f: nat, a: Answer)
    requires f < |w.tasks| && Advance(w, f, a).log == w.log && !(w.tasks[f].Answering? && (a.ok || a.effect))
    ensures var v := Advance(w, f, a);
            && |v.tasks| == |w.tasks| && Continues(w, w.tasks[f], v.tasks[f])
            && v.result == w.result && v.requests == w.requests
  {
  }

  lemma {:induction false} ContinuesInOrder(w: World, f: nat, t: Task, u: Task)
    requires InOrder(w, f, t) && Continues(w, t, u) && forall i: nat :: ActedBy(w, i, f) ==> w.log[i].id <= |w.requests|
    requires w.request.Some? ==> w.request.value.id == |w.requests|
    ensures InOrder(w, f, u)
  {
    hide AnsweredAfter;
  }

  lemma {:induction false} SilentTask(w: World, f: nat, a: Answer)
    requires Sound(w) && Orderly(w) && f < |w.tasks|
    requires Advance(w, f, a).log == w.log && !(w.tasks[f].Answering? && (a.ok || a.effect))
    ensures Orderly(Advance(w, f, a))
  {
    hide Advance, InOrder, Alone, AnsweredAfter, LastWrite, EntryOk, CheckOk, Written, TaskOk, Known, Continues;
    var v := Advance(w, f, a);
    SilentAdvance(w, f, a);
    forall g | 0 <= g < |v.tasks| ensures InOrder(w, g, v.tasks[g]) {
      if g != f { OthersStay(w, f, a, g); } else { ContinuesInOrder(w, f, w.tasks[f], v.tasks[f]); }
    }
    SilentStep(w, v);
  }

  lemma {:induction false} NextOrderly(w: World, s: Step)
    requires Sound(w) && Orderly(w)
    ensures Orderly(Next(w, s))
  {
    hide Sound, Advance, Look, InOrder, Alone;
    var v := Next(w, s);
    if s.DoTask? {
      if s.f < |w.tasks| { TaskStepOrderly(w, s.f, s.a); }
    } else {
      forall f | 0 <= f < |v.tasks| ensures InOrder(w, f, v.tasks[f]) { if f == |w.tasks| { NewInOrder(w, f); } }
      SilentStep(w, v);
    }
  }

  lemma {:induction false} NewInOrder(w: World, f: nat)
    requires Orderly(w) && f == |w.tasks|
    ensures InOrder(w, f, Idle)
  {
    forall i: nat ensures !ActedBy(w, i, f) { }
  }

  lemma {:induction false} RunOrderly(config: Option<Config>, service: Option<Config>, steps: seq<Step>)
    ensures Orderly(Run(Start(config, service), steps))
  {
    hide Next, Sound, InOrder, Alone;
    if steps != [] {
      RunOrderly(config, service, steps[..|steps| - 1]);
      RunSound(config, service, steps[..|steps| - 1]);
      NextOrderly(Run(Start(config, service), steps[..|steps| - 1]), steps[|steps| - 1]);
    }
  }

  /** The last write, after entry i, is another command's and answers another request. */
  ghost predicate HiddenSince(w: World, f: nat, i: nat, id: nat) {
    exists m: nat :: i < m && LastWrite(w, m) && w.log[m].f != f && w.log[m].result.id != id
  }

  /** When a command looks at a request it has already taken up, it does so again exactly
      if it cannot read the result file, or if the last result is by another command
      and for another request: then its own answer is hidden. */
  lemma {:induction false} ActsAgainExactly(
    config: Option<Config>, service: Option<Config>, steps: seq<Step>, f: nat, i: nat, readable: bool)
    requires var w := Run(Start(config, service), steps);
             f < |w.tasks| && w.tasks[f].HasRequest? && ActedAt(w, i, f, w.tasks[f].req.id)
    ensures var w := Run(Start(config, service), steps); var req := w.tasks[f].req;
            ReadResult(w, f, req, readable) != At(w, f, Idle) <==> !readable || HiddenSince(w, f, i, req.id)
  {
    hide Run, Sound, Orderly, HiddenSince;
    RunSound(config, service, steps);
    RunOrderly(config, service, steps);
    ActsAgain(Run(Start(config, service), steps), f, i, readable);
  }

  lemma {:induction false} ActsAgain(w: World, f: nat, i: nat, readable: bool)
    requires Sound(w) && Orderly(w) && f < |w.tasks| && w.tasks[f].HasRequest? && ActedAt(w, i, f, w.tasks[f].req.id)
    ensures ReadResult(w, f, w.tasks[f].req, readable) != At(w, f, Idle) <==>
        !readable || HiddenSince(w, f, i, w.tasks[f].req.id)
  {
    hide Sound, Orderly;
    var m := LastWriteAfter(w, f, i);
    if w.log[m].f == f { SameAuthor(w, f, i, m); }
    assert At(w, f, Idle).tasks[f] != ReadResult(w, f, w.tasks[f].req, false).tasks[f];
  }

  /** With a readable result file and nobody else writing since, a request already taken
      up is left alone; in particular if only one command was ever attached. */
  lemma {:induction false} AloneActsOnce(
      config: Option<Config>, service: Option<Config>, steps: seq<Step>, f: nat, i: nat)
    requires var w := Run(Start(config, service), steps);
             && f < |w.tasks| && w.tasks[f].HasRequest? && ActedAt(w, i, f, w.tasks[f].req.id)
             && (|w.tasks| == 1 || forall k: nat :: i < k && WroteAt(w, k) ==> w.log[k].f == f)
    ensures var w := Run(Start(config, service), steps); ReadResult(w, f, w.tasks[f].req, true) == At(w, f, Idle)
  {
    hide Run, Sound, Orderly;
    var w := Run(Start(config, service), steps);
    RunSound(config, service, steps);
    RunOrderly(config, service, steps);
    ActsAgain(w, f, i, true);
    forall k: nat | WroteAt(w, k) ensures w.log[k].f < |w.tasks| { AuthorAttached(w, k); }
  }

  lemma {:induction false} AuthorAttached(w: World, k: nat)
    requires Sound(w) && Orderly(w) && WroteAt(w, k)
    ensures w.log[k].f < |w.tasks|
  {
    hide TaskOk, CheckOk, Written, LastWrite, Known, Backed, AnsweredAfter, InOrder, Alone;
    assert EntryOk(w, k);
    assert ActedBy(w, w.log[k].since, w.log[k].f);
  }

  lemma {:induction false} LastWriteAfter(w: World, f: nat, i: nat) returns (m: nat)
    requires Orderly(w) && f < |w.tasks| && w.tasks[f].HasRequest? && ActedBy(w, i, f)
    ensures i < m && LastWrite(w, m)
  {
    hide Alone;
    assert InOrder(w, f, w.tasks[f]);
    var k: nat :| i < k && WroteAt(w, k) && w.log[k].since == i;
    m :| k <= m && LastWrite(w, m);
  }

  lemma {:induction false} SameAuthor(w: World, f: nat, i: nat, m: nat)
    requires Sound(w) && Orderly(w) && f < |w.tasks| && w.tasks[f].HasRequest? && ActedAt(w, i, f, w.tasks[f].req.id)
    requires i < m && WroteAt(w, m) && w.log[m].f == f
    ensures w.log[m].result.id == w.tasks[f].req.id
  {
    hide TaskOk, CheckOk, Written, LastWrite, Known, Backed, AnsweredAfter;
    assert EntryOk(w, m) && Alone(w, m) && InOrder(w, f, w.tasks[f]);
    var since := w.log[m].since;
    assert ActedBy(w, since, f) && ActedBy(w, i, f);
    assert since >= i;
  }

  // ---------------------------------------------------------------- acting once, in the log

  /** Between two entries the last write is another command's, for another request. */
  ghost predicate HiddenBetween(w: World, i: nat, j: nat)
    requires j < |w.log| && w.log[j].Acted?
  {
    exists m: nat :: i < m < j && WroteAt(w, m) && (forall k: nat :: m < k < j ==> !WroteAt(w, k))
      && w.log[m].f != w.log[j].f && w.log[m].result.id != w.log[j].id
  }

  /** Every repetition in the log: the same request taken up twice by one command. */
  ghost predicate Repeats(w: World, i: nat, j: nat) {
    && i < j < |w.log| && w.log[i].Acted? && w.log[j].Acted?
    && w.log[i].f == w.log[j].f && w.log[i].id == w.log[j].id && w.log[j].readable
  }

  ghost predicate Excused(w: World) { forall i: nat, j: nat :: Repeats(w, i, j) ==> HiddenBetween(w, i, j) }

  lemma {:induction false} HiddenStays(w: World, v: World, i: nat, j: nat)
    requires Grows(w, v) && j < |w.log| && w.log[j].Acted? && HiddenBetween(w, i, j)
    ensures HiddenBetween(v, i, j)
  {
    var m: nat :| i < m < j && WroteAt(w, m) && (forall k: nat :: m < k < j ==> !WroteAt(w, k))
                  && w.log[m].f != w.log[j].f && w.log[m].result.id != w.log[j].id;
    assert v.log[j] == w.log[j] && v.log[m] == w.log[m] && WroteAt(v, m);
    forall k: nat | m < k < j ensures !WroteAt(v, k) { assert v.log[k] == w.log[k] && !WroteAt(w, k); }
  }

  /** What a step adds to the log; a request is taken up only by a command that has read it
      and does not find it answered. */
  lemma {:induction false} NextEntry(w: World, s: Step)
    ensures var v := Next(w, s);
            || v.log == w.log
            || (v.log == w.log + [v.log[|w.log|]] && !v.log[|w.log|].Acted?)
            || (s.DoTask? && s.f < |w.tasks| && w.tasks[s.f].HasRequest?
                && v.log == w.log + [Acted(s.f, w.tasks[s.f].req.id, s.a.ok)]
                && ReadResult(w, s.f, w.tasks[s.f].req, s.a.ok) != At(w, s.f, Idle))
  {
    hide Look;
    if s.DoTask? && s.f < |w.tasks| && w.tasks[s.f].HasRequest? && Next(w, s).log != w.log {
      assert Next(w, s) == ReadResult(w, s.f, w.tasks[s.f].req, s.a.ok);
    }
  }

  lemma {:induction false} NextExcused(w: World, s: Step)
    requires Sound(w) && Orderly(w) && Excused(w)
    ensures Excused(Next(w, s))
  {
    hide Next, Sound, Orderly, HiddenBetween;
    var v := Next(w, s);
    NextGrows(w, s);
    NextEntry(w, s);
    forall i: nat, j: nat | Repeats(v, i, j) ensures HiddenBetween(v, i, j) {
      assert v.log[i] == w.log[i];
      if j < |w.log| {
        assert v.log[j] == w.log[j] && Repeats(w, i, j);
        HiddenStays(w, v, i, j);
      } else {
        ActsAgain(w, s.f, i, s.a.ok);
        assert HiddenBetween(v, i, j) by { HiddenNow(w, v, s.f, i); }
      }
    }
  }

  lemma {:induction false} HiddenNow(w: World, v: World, f: nat, i: nat)
    requires f < |w.tasks| && w.tasks[f].HasRequest? && HiddenSince(w, f, i, w.tasks[f].req.id)
    requires v.log == w.log + [Acted(f, w.tasks[f].req.id, true)]
    ensures HiddenBetween(v, i, |w.log|)
  {
    var m: nat :| i < m && LastWrite(w, m) && w.log[m].f != f && w.log[m].result.id != w.tasks[f].req.id;
    assert v.log[m] == w.log[m] && WroteAt(v, m);
    forall k: nat | m < k < |w.log| ensures !WroteAt(v, k) { assert v.log[k] == w.log[k] && !WroteAt(w, k); }
  }

  /** In every run: a command takes a request up again, with a readable result file, only
      when the last result written in between is another command's for another request. */
  lemma {:induction false} TwiceMeansOverwritten(config: Option<Config>, service: Option<Config>, steps: seq<Step>)
    ensures Excused(Run(Start(config, service), steps))
  {
    hide Next, Sound, Orderly, Excused;
    if steps == [] {
      assert Excused(Start(config, service)) by { EmptyExcused(config, service); }
    } else {
      var w := Run(Start(config, service), steps[..|steps| - 1]);
      TwiceMeansOverwritten(config, service, steps[..|steps| - 1]);
      RunSound(config, service, steps[..|steps| - 1]);
      RunOrderly(config, service, steps[..|steps| - 1]);
      NextExcused(w, steps[|steps| - 1]);
    }
  }

  lemma EmptyExcused(config: Option<Config>, service: Option<Config>)
    ensures Excused(Start(config, service))
  {
  }

  /** So a single attached command that can read the result file acts on each request
      at most once. */
  lemma {:induction false} OneCommandActsOnce(
      config: Option<Config>, service: Option<Config>, steps: seq<Step>, i: nat, j: nat)
    requires |Run(Start(config, service), steps).tasks| <= 1
    ensures !Repeats(Run(Start(config, service), steps), i, j)
  {
    hide Run, Sound, Orderly;
    var w := Run(Start(config, service), steps);
    RunSound(config, service, steps);
    RunOrderly(config, service, steps);
    TwiceMeansOverwritten(config, service, steps);
    if Repeats(w, i, j) {
      ActorAttached(w, j);
      var m: nat :| i < m < j && WroteAt(w, m) && w.log[m].f != w.log[j].f;
      AuthorAttached(w, m);
      assert false;
    }
  }

  lemma {:induction false} ActorAttached(w: World, j: nat)
    requires Orderly(w) && j < |w.log| && w.log[j].Acted?
    ensures w.log[j].f < |w.tasks|
  {
    hide InOrder, Alone, LastWrite;
    assert ActedBy(w, j, w.log[j].f);
  }

  // ---------------------------------------------------------------- acting twice

  ghost predicate Reachable(w: World) {
    exists config, service, steps :: Run(Start(config, service), steps) == w
  }

  lemma {:induction false} After(w: World, s: Step) returns (v: World)
    requires Reachable(w)
    ensures v == Next(w, s) && Reachable(v)
  {
    hide Next;
    var config, service, steps :| Run(Start(config, service), steps) == w;
    v := Next(w, s);
    assert (steps + [s])[..|steps|] == steps;
    assert Run(Start(config, service), steps + [s]) == v;
  }

  /** One command answers a superseded request, from the moment it looks for one. */
  lemma {:induction false} Answers(w: World, f: nat, saved: Config, wanted: Config) returns (v: World)
    requires Reachable(w) && f < |w.tasks| && w.tasks[f] == Idle && w.config == Some(saved) && wanted != saved
    requires w.request == Some(Request(|w.requests|, wanted, false))
    requires (w.result.Some? ==> w.result.value.id != |w.requests|)
    ensures Reachable(v)
    ensures var id := |w.requests|; var since := |w.log|;
            v == w.(result := Some(Failure(id)), log := w.log + [Acted(f, id, true), Wrote(f, Failure(id), since, 0)])
  {
    hide Reachable;
    var a := Answer(true, false, true, 0);
    var id := |w.requests|;
    var req := Request(id, wanted, false);
    var u := After(w, DoTask(f, a));
    u := After(u, DoTask(f, a));
    assert u == At(Noted(w, Acted(f, id, true)), f, Loading(req, |w.log|));
    u := After(u, DoTask(f, a));
    assert u == At(Noted(w, Acted(f, id, true)), f, Answering(req, |w.log|, Failure(id), 0, false));
    v := After(u, DoTask(f, a));
    assert v.tasks == w.tasks;
    assert v.log == w.log + [Acted(f, id, true), Wrote(f, Failure(id), |w.log|, 0)];
  }

  /** A slow command and a quick one: the slow one answers request 1 when the quick
      one has long answered request 2, which the quick one then takes up again. */
  lemma {:induction false} MayActTwice() returns (w: World)
    ensures Reachable(w) && |w.log| > 6 && w.log[3] == Acted(1, 2, true) && w.log[6] == Acted(1, 2, true)
  {
    hide Reachable;
    var saved, wanted := Config(0, 0), Config(1, 0);
    w := Slow(saved, wanted);
    w := Answers(w, 1, saved, wanted);
    w := After(w, DoRequest(wanted, false));
    w := Answers(w, 1, saved, wanted);
    assert w.log[3] == Acted(1, 2, true);
    w := SlowAnswers(w, saved, wanted);
    w := Answers(w, 1, saved, wanted);
    assert w.log[6] == Acted(1, 2, true);
  }

  /** The slow command has taken request 1 up. */
  lemma {:induction false} Slow(saved: Config, wanted: Config) returns (w: World)
    ensures Reachable(w)
    ensures var req := Request(1, wanted, false);
            w == World(Some(saved), Some(req), None, None, [req], [Loading(req, 0), Idle], [], [Acted(0, 1, true)])
  {
    hide Reachable;
    var a := Answer(true, false, true, 0);
    w := Start(Some(saved), None);
    ReachableStart(Some(saved));
    w := After(w, DoRequest(wanted, false));
    w := After(w, DoAttach);
    w := After(w, DoAttach);
    w := After(w, DoTask(0, a));
    w := After(w, DoTask(0, a));
  }

  lemma {:induction false} ReachableStart(config: Option<Config>)
    ensures Reachable(Start(config, None))
  {
    assert Run(Start(config, None), []) == Start(config, None);
  }

  lemma {:induction false} SlowAnswers(w: World, saved: Config, wanted: Config) returns (v: World)
    requires Reachable(w) && |w.tasks| == 2 && w.tasks[0] == Loading(Request(1, wanted, false), 0)
    requires w.config == Some(saved) && wanted != saved
    ensures Reachable(v)
    ensures v
            == w.(result := Some(Failure(1)), log := w.log + [Wrote(0, Failure(1), 0, 0)], tasks := [Idle, w.tasks[1]])
  {
    hide Reachable;
    var a := Answer(true, false, true, 0);
    v := After(w, DoTask(0, a));
    v := After(v, DoTask(0, a));
    assert v.tasks == [Idle, w.tasks[1]];
  }
}
