/** A requested start that lands inside a running transition: it does not wait for its turn,
    so that the next write of the transition may overwrite what it asked for. */
module RequestProofs {
  import opened Wrappers
  import opened Generation
  import opened SupervisorSpec
  import opened SupervisorProofs

  /** A request, if one arrives here. */
  function Landed(s: Sup, here: bool, env: Env): (r: Sup)
    ensures r.slot == s.slot && r.gens == s.gens
  {
    if here then RequestStart(s, env).s else s
  }

  /** Closing, with requests after the desired state was read: before or after the teardown. */
  function CloseAmid(s: Sup, early: bool, late: bool, env: Env): Outcome
    requires SlotValid(s)
  {
    var q := Landed(s, early, env);
    match s.slot
    case None => Update(q, q.st.(desired := s.st.desired, actual := ActualStopped), env)
    case Some(id) =>
      var c := Demolish(q, id, true, env);
      var w := Landed(c.s, late, env);
      if c.local == [] && Closed(w.gens[id]) then
        var u := Update(w.(slot := None), State(s.st.desired, ActualStopped, c.remote), env);
        Outcome(u.s, c.remote + u.err)
      else
        var u := Update(w, State(s.st.desired, ActualFailed, c.remote + c.local), env);
        Outcome(u.s, c.remote + c.local + u.err)
  }

  /** Stopping, with requests after its first write: before or after the teardown. */
  function StopAmid(s: Sup, early: bool, late: bool, env: Env): Outcome
    requires SlotValid(s)
  {
    var u := Update(s, State(DesiredStopped, ActualStopping, []), env);
    var q := Landed(u.s, early, env);
    match s.slot
    case None =>
      var v := Update(q, q.st.(actual := ActualStopped), env);
      Outcome(v.s, u.err + v.err)
    case Some(id) =>
      var c := Demolish(q, id, true, env);
      var w := Landed(c.s, late, env);
      if c.local == [] && Closed(w.gens[id]) then
        var v := Update(w.(slot := None), State(DesiredStopped, ActualStopped, c.remote), env);
        Outcome(v.s, u.err + c.remote + v.err)
      else
        var v := Update(w, State(DesiredStopped, ActualFailed, c.remote + c.local), env);
        Outcome(v.s, u.err + c.remote + c.local + v.err)
  }

  /** Reconciling while stopped is desired, with requests after that was read. */
  function ReconcileAmid(s: Sup, early: bool, late: bool, env: Env): Outcome
    requires SlotValid(s)
  {
    var q := Landed(s, early, env);
    match s.slot
    case None => Update(q, State(q.st.desired, ActualStopped, []), env)
    case Some(id) =>
      var c := Demolish(q, id, false, env);
      var w := Landed(c.s, late, env);
      if c.local != [] then Fail(w, DesiredStopped, c.remote + c.local, env)
      else if !Closed(w.gens[id]) then Fail(w, DesiredStopped, c.remote + [StillOwnsResources], env)
      else Update(w.(slot := None), State(w.st.desired, ActualStopped, []), env)
  }

  /** Starting or restarting when the first write fails, with a request before the
      restoration. */
  function RestoredAmid(s: Sup, first: State, here: bool, env: Env): Sup {
    Landed(Update(s, first, env).s, here, env).(st := s.st)
  }

  /** Without a request these are the transitions themselves. */
  lemma {:induction false} NothingLanded(d: Deps, s: Sup, cfg: Config, env: Env)
    requires SlotValid(s)
    ensures CloseAmid(s, false, false, env) == Close(s, env)
    ensures StopAmid(s, false, false, env) == Stop(s, env)
    ensures s.st.desired.DesiredStopped? ==> ReconcileAmid(s, false, false, env) == Reconcile(d, s, cfg, env)
    ensures !env(s.clock).ok ==>
        && Start(d, s, env).s == RestoredAmid(s, State(DesiredRunning, ActualStarting, []), false, env)
        && Restart(d, s, env).s == RestoredAmid(s, State(DesiredRunning, ActualStopping, []), false, env)
  {
    hide Teardown, Closed;
  }

  // ---------------------------------------------------------------- what becomes of the request

  lemma {:induction false} LandedQuiet(d: Deps, s: Sup, here: bool, env: Env)
    requires Quiet(d, s)
    ensures var r := Landed(s, here, env);
            && r.slot == s.slot && r.gens == s.gens && Quiet(d, r) && Executing(r) == Executing(s)
            && (r.st.desired.DesiredRunning? <==> here || s.st.desired.DesiredRunning?)
  {
    hide Retired, Exclusive, Settled, Watched, Update;
    if here {
      var next := State(DesiredRunning, if s.st.actual.ActualFailed? then ActualStopped else s.st.actual, []);
      UpdateQuiet(d, s, next, env);
      UpdateSets(s, next, env);
    }
  }

  lemma LandedFree(s: Sup, here: bool, env: Env)
    ensures Landed(s, here, env).(slot := None) == Landed(s.(slot := None), here, env)
  {
  }

  /** The teardown of what is in the slot, with requests around it. */
  lemma {:induction false} AmidTeardown(d: Deps, s: Sup, early: bool, late: bool, pause: bool, env: Env)
    requires Quiet(d, s) && s.slot.Some? && (pause || !Executing(s))
    ensures var c := Demolish(Landed(s, early, env), s.slot.value, pause, env);
            var w := Landed(c.s, late, env);
            && w.slot == s.slot && s.slot.value < |w.gens| && Quiet(d, w) && !Executing(w)
            && (Closed(w.gens[s.slot.value]) <==> c.local == [])
            && (c.local == [] ==> Quiet(d, w.(slot := None)))
            && (w.st.desired.DesiredRunning? <==> early || late || s.st.desired.DesiredRunning?)
  {
    hide Retired, Exclusive, Settled, Watched, Demolish, Landed, Closed, Underway;
    LandedQuiet(d, s, early, env);
    var q := Landed(s, early, env);
    QuietUnderway(d, q);
    DemolishQuiet(d, q, pause, env);
    var c := Demolish(q, s.slot.value, pause, env);
    LandedQuiet(d, c.s, late, env);
    if c.local == [] {
      LandedQuiet(d, c.s.(slot := None), late, env);
      LandedFree(c.s, late, env);
    }
  }

  /** Closing overwrites the request: what is desired afterwards, also in the file, is what was
      desired when it began. */
  lemma {:induction false} CloseOverwrites(d: Deps, s: Sup, early: bool, late: bool, env: Env)
    requires Inv(d, s)
    ensures var r := CloseAmid(s, early, late, env).s;
            && Inv(d, r) && !Executing(r) && r.st.desired == s.st.desired
            && r.saves != [] && r.saves[|r.saves| - 1].state == r.st
  {
    hide Retired, Exclusive, Settled, Watched, Demolish, Landed, Closed, Quiet;
    if s.slot.None? {
      LandedQuiet(d, s, early, env);
      var q := Landed(s, early, env);
      UpdateQuiet(d, q, q.st.(desired := s.st.desired, actual := ActualStopped), env);
    } else {
      AmidTeardown(d, s, early, late, true, env);
      var c := Demolish(Landed(s, early, env), s.slot.value, true, env);
      var w := Landed(c.s, late, env);
      if c.local == [] { UpdateQuiet(d, w.(slot := None), State(s.st.desired, ActualStopped, c.remote), env); }
      else { UpdateQuiet(d, w, State(s.st.desired, ActualFailed, c.remote + c.local), env); }
    }
  }

  /** Stopping overwrites it exactly if there is a generation to tear down: without one
      the last write leaves the desired state as it finds it. */
  lemma {:induction false} StopKeepsExactly(d: Deps, s: Sup, early: bool, late: bool, env: Env)
    requires Inv(d, s)
    ensures var r := StopAmid(s, early, late, env).s;
            && Inv(d, r) && !Executing(r) && (r.st.desired.DesiredRunning? <==> early && s.slot.None?)
            && r.saves != [] && r.saves[|r.saves| - 1].state == r.st
  {
    hide Retired, Exclusive, Settled, Watched, Demolish, Landed, Closed, Quiet;
    var u := Update(s, State(DesiredStopped, ActualStopping, []), env);
    UpdateQuiet(d, s, State(DesiredStopped, ActualStopping, []), env);
    if s.slot.None? {
      LandedQuiet(d, u.s, early, env);
      var q := Landed(u.s, early, env);
      UpdateQuiet(d, q, q.st.(actual := ActualStopped), env);
    } else {
      AmidTeardown(d, u.s, early, late, true, env);
      var c := Demolish(Landed(u.s, early, env), s.slot.value, true, env);
      var w := Landed(c.s, late, env);
      if c.local == [] { UpdateQuiet(d, w.(slot := None), State(DesiredStopped, ActualStopped, c.remote), env); }
      else { UpdateQuiet(d, w, State(DesiredStopped, ActualFailed, c.remote + c.local), env); }
    }
  }

  /** Reconciling while stopped is desired keeps it exactly if the slot ends up empty. */
  lemma {:induction false} ReconcileKeepsExactly(d: Deps, s: Sup, early: bool, late: bool, env: Env)
    requires Inv(d, s) && s.st.desired.DesiredStopped?
    ensures var r := ReconcileAmid(s, early, late, env).s;
            && Inv(d, r) && !Executing(r)
            && (r.st.desired.DesiredRunning? <==> (early || (late && s.slot.Some?)) && r.slot.None?)
            && r.saves != [] && r.saves[|r.saves| - 1].state == r.st
  {
    hide Retired, Exclusive, Settled, Watched, Demolish, Landed, Closed, Quiet;
    if s.slot.None? {
      LandedQuiet(d, s, early, env);
      var q := Landed(s, early, env);
      UpdateQuiet(d, q, State(q.st.desired, ActualStopped, []), env);
    } else {
      AmidTeardown(d, s, early, late, false, env);
      var c := Demolish(Landed(s, early, env), s.slot.value, false, env);
      var w := Landed(c.s, late, env);
      if c.local == [] { UpdateQuiet(d, w.(slot := None), State(w.st.desired, ActualStopped, []), env); }
      else { UpdateQuiet(d, w, State(DesiredStopped, ActualFailed, c.remote + c.local), env); }
    }
  }

  /** A start or restart whose first write fails restores the state it found, and with it
      forgets the request; the file, if it could be replaced, says running all the same. */
  lemma {:induction false} RestoredForgets(d: Deps, s: Sup, first: State, env: Env)
    requires Inv(d, s)
    ensures var r := RestoredAmid(s, first, true, env);
            && Inv(d, r) && r.st == s.st
            && r.saves != [] && r.saves[|r.saves| - 1].state.desired.DesiredRunning?
            && r.saves[|r.saves| - 1].replaced == (env(s.clock + 1).ok || env(s.clock + 1).effect)
  {
    hide Retired, Exclusive, Settled, Watched, Quiet;
    UpdateQuiet(d, s, first, env);
    LandedQuiet(d, Update(s, first, env).s, true, env);
    StateIsFree(d, RequestStart(Update(s, first, env).s, env).s, s.st);
  }

  lemma {:induction false} StateIsFree(d: Deps, s: Sup, st: State)
    requires Quiet(d, s)
    ensures Quiet(d, s.(st := st))
  {
    hide Retired, Settled, Watched;
  }
}
