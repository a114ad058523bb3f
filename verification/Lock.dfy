/** The same protocol as one command executes it: straight-line code over the two
    files, with everything that other commands do in between.  Each method is
    proved to be part of a run of LockSpec. */
module CoordinatorLock {
  import opened Wrappers
  import opened LockSpec

  datatype Attempted = Acquired | Refused | Again

  predicate Touches(s: Step, n: nat) { (s.DoSession? || s.DoLeave?) && s.n == n }

  lemma {:induction false} Longer(steps: seq<Step>, s: Step)
    ensures Run(EMPTY, steps + [s]) == Next(Run(EMPTY, steps), s)
  {
    assert (steps + [s])[..|steps|] == steps;
  }

  lemma NotMine(w: World, s: Step, n: nat)
    requires n < |w.sessions| && !Touches(s, n)
    ensures n < |Next(w, s).sessions| && Next(w, s).sessions[n] == w.sessions[n]
  {
  }

  lemma NotReading(w: World, s: Step, pid: nat)
    requires !((s.DoReadPresence? || s.DoReadLock?) && s.pid == pid)
    ensures pid in Next(w, s).reading <==> pid in w.reading
    ensures pid in w.reading ==> Next(w, s).reading[pid] == w.reading[pid]
  {
  }

  class ConfigDir {
    const others: nat -> seq<Step>
    const answers: nat -> Answer
    var lock: Option<Lock>
    var presence: Option<Presence>
    var sessions: seq<Session>
    var reading: map<nat, nat>
    var passes: seq<Pass>
    var time: nat
    ghost var history: seq<Step>

    function Value(): World
      reads this
    {
      World(lock, presence, sessions, reading, passes)
    }

    ghost predicate Valid()
      reads this
    {
      Value() == Run(EMPTY, history)
    }

    constructor (o: nat -> seq<Step>, a: nat -> Answer)
      ensures Valid() && Value() == EMPTY && others == o && answers == a
    {
      others, answers := o, a;
      lock, presence, sessions, reading, passes := None, None, [], map[], [];
      time, history := 0, [];
    }

    /** One operation of somebody else. */
    method Apply(s: Step)
      requires Valid()
      modifies this
      ensures Valid() && Value() == Next(old(Value()), s) && time == old(time) && history == old(history) + [s]
    {
      Longer(history, s);
      var w := Next(Value(), s);
      lock, presence, sessions, reading, passes := w.lock, w.presence, w.sessions, w.reading, w.passes;
      history := history + [s];
    }

    /** Everything that happens before the next operation of session n, and before
        the second half of a check that its process is making; and how that operation
        will go. */
    method Others(n: nat, pid: nat) returns (a: Answer)
      requires Valid() && n <= |sessions|
      modifies this
      ensures Valid() && old(history) <= history && |old(sessions)| <= |sessions|
      ensures n < |old(sessions)| ==> sessions[n] == old(sessions[n])
      ensures pid in reading <==> pid in old(reading)
      ensures pid in reading ==> reading[pid] == old(reading)[pid]
    {
      hide Next, Run;
      var steps := others(time);
      for k := 0 to |steps|
        invariant Valid() && old(history) <= history && |old(sessions)| <= |sessions|
        invariant n < |old(sessions)| ==> sessions[n] == old(sessions[n])
        invariant pid in reading <==> pid in old(reading)
        invariant pid in reading ==> reading[pid] == old(reading)[pid]
      {
        var s := steps[k];
        if !Touches(s, n) && !((s.DoReadPresence? || s.DoReadLock?) && s.pid == pid) {
          NoneLost(Value(), s);
          NotReading(Value(), s, pid);
          if n < |old(sessions)| { NotMine(Value(), s, n); }
          Apply(s);
        }
      }
      a := answers(time);
      time := time + 1;
    }

    lemma NoneLost(w: World, s: Step)
      ensures |w.sessions| <= |Next(w, s).sessions|
    {
    }

    method Begin(pid: nat) returns (n: nat)
      requires Valid()
      modifies this`sessions, this`history
      ensures Valid() && n == |old(sessions)| && sessions == old(sessions) + [Session(pid, Trying(0))]
      ensures history == old(history) + [DoBegin(pid)]
    {
      Longer(history, DoBegin(pid));
      n := |sessions|;
      sessions := sessions + [Session(pid, Trying(0))];
      history := history + [DoBegin(pid)];
    }

    /** The session has taken its next operation and is at this stage. */
    twostate predicate Did(n: nat, stage: Stage)
      requires old(n < |sessions|)
      reads this
    {
      Valid() && old(history) <= history && |sessions| == old(|sessions|)
      && sessions[n] == old(sessions[n]).(stage := stage)
    }

    /** Creates the lock file unless one exists. */
    method CreateLock(n: nat, a: Answer) returns (created: bool)
      requires Valid() && n < |sessions| && sessions[n].stage.Trying?
      modifies this`lock, this`sessions, this`history
      ensures created <==> a.ok && old(lock).None?
      ensures Did(n, if created then Opened else if a.ok then Blocked(old(sessions[n]).stage.attempt) else Ended)
    {
      Longer(history, DoSession(n, a));
      created := a.ok && lock.None?;
      var stage := if a.ok then Blocked(sessions[n].stage.attempt) else Ended;
      if created {
        lock := Some(Lock(n, false));
        stage := Opened;
      }
      sessions := sessions[n := sessions[n].(stage := stage)];
      history := history + [DoSession(n, a)];
    }

    /** Looks at the presence and at the age of the lock. */
    method Inspect(n: nat, a: Answer) returns (stale: bool)
      requires Valid() && n < |sessions| && sessions[n].stage.Blocked?
      modifies this`sessions, this`history
      ensures stale <==> !a.respected && lock.Some?
      ensures var k := old(sessions[n]).stage.attempt;
              Did(n, if a.respected then Ended else if lock.None? then Retry(k) else Reclaiming(k, lock.value.nonce))
    {
      Longer(history, DoSession(n, a));
      stale := !a.respected && lock.Some?;
      var stage := Ended;
      if !a.respected {
        var attempt := sessions[n].stage.attempt;
        stage := if lock.None? then Retry(attempt) else Reclaiming(attempt, lock.value.nonce);
      }
      sessions := sessions[n := sessions[n].(stage := stage)];
      history := history + [DoSession(n, a)];
    }

    /** Removes whatever lock is at the path by now. */
    method RemoveLock(n: nat, a: Answer)
      requires Valid() && n < |sessions| && Removes(sessions[n].stage)
      modifies this`lock, this`sessions, this`history
      ensures lock == if Happens(a) then None else old(lock)
      ensures var was := old(sessions[n]).stage; Did(n, if was.Reclaiming? && a.ok then Retry(was.attempt) else Ended)
    {
      Longer(history, DoSession(n, a));
      if Happens(a) { lock := None; }
      var stage := Ended;
      if a.ok && sessions[n].stage.Reclaiming? { stage := Retry(sessions[n].stage.attempt); }
      sessions := sessions[n := sessions[n].(stage := stage)];
      history := history + [DoSession(n, a)];
    }

    /** Writes the nonce into the file created before, which may have been removed. */
    method WriteNonce(n: nat, a: Answer)
      requires Valid() && n < |sessions| && sessions[n].stage.Opened?
      modifies this`lock, this`sessions, this`history
      ensures Did(n, if a.ok then Held else WriteFailed)
    {
      Longer(history, DoSession(n, a));
      if Happens(a) && lock.Some? && lock.value.nonce == n { lock := Some(Lock(n, true)); }
      sessions := sessions[n := sessions[n].(stage := if a.ok then Held else WriteFailed)];
      history := history + [DoSession(n, a)];
    }

    /** One attempt to create the lock and write the nonce. */
    method TryOnce(n: nat, pid: nat) returns (outcome: Attempted)
      requires Valid() && n < |sessions| && sessions[n].pid == pid && sessions[n].stage.Trying?
      modifies this
      ensures Valid() && old(history) <= history && n < |sessions| && sessions[n].pid == pid
      ensures sessions[n].stage == match outcome case Acquired => Held case Refused => Ended
                                   case Again => Retry(old(sessions[n]).stage.attempt)
    {
      hide Run, Retry;
      var a := Others(n, pid);
      var created := CreateLock(n, a);
      if created {
        outcome := FillLock(n, pid);
        return;
      }
      if !a.ok { return Refused; }
      a := Others(n, pid);
      var stale := Inspect(n, a);
      if a.respected { return Refused; }
      if !stale { return Again; }
      a := Others(n, pid);
      RemoveLock(n, a);
      outcome := if a.ok then Again else Refused;
    }

    /** A lock whose nonce could not be written is removed. */
    method FillLock(n: nat, pid: nat) returns (outcome: Attempted)
      requires Valid() && n < |sessions| && sessions[n].pid == pid && sessions[n].stage.Opened?
      modifies this
      ensures Valid() && old(history) <= history && n < |sessions| && sessions[n].pid == pid
      ensures (outcome.Acquired? && sessions[n].stage == Held) || (outcome.Refused? && sessions[n].stage == Ended)
    {
      hide Run;
      var a := Others(n, pid);
      WriteNonce(n, a);
      if a.ok { return Acquired; }
      a := Others(n, pid);
      RemoveLock(n, a);
      outcome := Refused;
    }

    /** At most two attempts; a stale lock is removed in between. */
    method AcquireCoordinator(pid: nat) returns (n: nat, ok: bool)
      requires Valid()
      modifies this
      ensures Valid() && old(history) <= history && |old(sessions)| <= n < |sessions| && sessions[n].pid == pid
      ensures sessions[n].stage == if ok then Held else Ended
    {
      hide Run;
      n := Begin(pid);
      for attempt := 0 to MAX_ATTEMPTS
        invariant Valid() && old(history) <= history && n < |sessions| && sessions[n].pid == pid
        invariant sessions[n].stage == if attempt < MAX_ATTEMPTS then Trying(attempt) else Ended
      {
        var outcome := TryOnce(n, pid);
        if outcome != Again { return n, outcome == Acquired; }
      }
      ok := false;
    }

    /** Two reads with other commands in between; `true` is backed by a lock that held
        a nonce of this process when it was read. */
    method CoordinatorOwned(pid: nat) returns (owned: bool)
      requires Valid()
      modifies this
      ensures Valid() && old(history) <= history
      ensures owned ==> lock.Some? && lock.value.written && Created(Value(), pid, lock.value.nonce)
      ensures owned ==> passes != [] && passes[|passes| - 1] == Pass(pid, lock.value.nonce)
    {
      hide Run;
      var mine := ReadOwnPresence(pid);
      if !mine { return false; }
      var _ := Others(|sessions|, pid);
      ghost var was := history;
      owned := ReadLockFile(pid);
      if owned { PassMeansOwnLock(was, pid); }
    }

    method ReadOwnPresence(pid: nat) returns (mine: bool)
      requires Valid()
      modifies this`reading, this`history
      ensures Valid() && old(history) <= history && (mine <==> pid in reading)
    {
      Longer(history, DoReadPresence(pid));
      mine := presence.Some? && presence.value.pid == pid;
      reading := if mine then reading[pid := presence.value.nonce] else reading - {pid};
      history := history + [DoReadPresence(pid)];
    }

    method ReadLockFile(pid: nat) returns (same: bool)
      requires Valid() && pid in reading
      modifies this`reading, this`passes, this`history
      ensures Valid() && history == old(history) + [DoReadLock(pid)]
      ensures Value() == Next(old(Value()), DoReadLock(pid))
      ensures same <==> passes != old(passes)
      ensures same ==>
          Contains(old(Value()), old(reading)[pid]) && passes == old(passes) + [Pass(pid, old(reading)[pid])]
    {
      Longer(history, DoReadLock(pid));
      same := lock == Some(Lock(reading[pid], true));
      if same { passes := passes + [Pass(pid, reading[pid])]; }
      reading := reading - {pid};
      history := history + [DoReadLock(pid)];
    }

    /** Looks whether the lock is still the own one; a lock that cannot be read is not. */
    method OwnsLock(n: nat, a: Answer) returns (owns: bool)
      requires Valid() && n < |sessions|
      requires sessions[n].stage.Active? || sessions[n].stage.Leaving? || sessions[n].stage.Releasing?
      modifies this`sessions, this`history
      ensures owns <==> a.ok && lock == Some(Lock(n, true))
      ensures var was := old(sessions[n]).stage;
              Did(n, if was.Active? then (if owns then Refreshing else Active)
                     else if was.Leaving? then (if owns then LeavingOwner else Releasing)
                     else if owns then Removing else Ended)
    {
      Longer(history, DoSession(n, a));
      owns := a.ok && lock == Some(Lock(n, true));
      var was := sessions[n].stage;
      var stage := Ended;
      if was.Active? { stage := if owns then Refreshing else Active; }
      else if was.Leaving? { stage := if owns then LeavingOwner else Releasing; }
      else if owns { stage := Removing; }
      sessions := sessions[n := sessions[n].(stage := stage)];
      history := history + [DoSession(n, a)];
    }

    /** Replaces the presence file; a heartbeat goes on even if that fails. */
    method WritePresence(n: nat, a: Answer)
      requires Valid() && n < |sessions| && (sessions[n].stage.Held? || sessions[n].stage.Refreshing?)
      modifies this`presence, this`sessions, this`history
      ensures presence == if Happens(a) then Some(Presence(old(sessions[n]).pid, n)) else old(presence)
      ensures Did(n, if a.ok || old(sessions[n]).stage.Refreshing? then Active else Releasing)
    {
      Longer(history, DoSession(n, a));
      if Happens(a) { presence := Some(Presence(sessions[n].pid, n)); }
      var stage := if a.ok || sessions[n].stage.Refreshing? then Active else Releasing;
      sessions := sessions[n := sessions[n].(stage := stage)];
      history := history + [DoSession(n, a)];
    }

    /** One heartbeat: nothing is written once the lock is somebody else's. */
    method RefreshCoordinator(n: nat)
      requires Valid() && n < |sessions| && sessions[n].stage.Active?
      modifies this
      ensures Valid() && old(history) <= history && n < |sessions| && sessions[n] == old(sessions[n])
    {
      hide Run;
      var a := Others(n, sessions[n].pid);
      var owns := OwnsLock(n, a);
      if owns {
        a := Others(n, sessions[n].pid);
        WritePresence(n, a);
      }
    }

    method ReleaseCoordinator(n: nat)
      requires Valid() && n < |sessions| && sessions[n].stage.Releasing?
      modifies this
      ensures Valid() && old(history) <= history && n < |sessions|
      ensures sessions[n] == Session(old(sessions[n]).pid, Ended)
    {
      hide Run;
      var a := Others(n, sessions[n].pid);
      var owns := OwnsLock(n, a);
      if owns {
        a := Others(n, sessions[n].pid);
        RemoveLock(n, a);
      }
    }

    method StartPresence(pid: nat) returns (n: nat, ok: bool)
      requires Valid()
      modifies this
      ensures Valid() && old(history) <= history && |old(sessions)| <= n < |sessions| && sessions[n].pid == pid
      ensures sessions[n].stage == if ok then Active else Ended
    {
      hide Run;
      n, ok := AcquireCoordinator(pid);
      if !ok { return; }
      var a := Others(n, pid);
      WritePresence(n, a);
      ok := a.ok;
      if !ok { ReleaseCoordinator(n); }
    }
  }
}
