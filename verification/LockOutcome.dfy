/** When a session of the coordinator lease comes to which point, and what its operation does to
    the lock and to the presence. */
module LockOutcome {
  import opened Wrappers
  import opened LockSpec

  /** The lock is the session's own, and could be read. */
  predicate SeesOwn(w: World, n: nat, a: Answer) { a.ok && w.lock == Some(Lock(n, true)) }

  predicate OwnPresence(w: World, n: nat)
    requires n < |w.sessions|
  {
    w.presence == Some(Presence(w.sessions[n].pid, n))
  }

  /** The first attempt has failed so that there is another; there are two in all. */
  predicate TriesAgain(w: World, s: Stage, a: Answer) {
    (s.Blocked? && s.attempt == 0 && !a.respected && w.lock.None?) || (s.Reclaiming? && s.attempt == 0 && a.ok)
  }

  /** Where a session comes to, by where it stood. */
  ghost predicate Comes(w: World, n: nat, s: Stage, t: Stage, a: Answer)
    requires n < |w.sessions|
  {
    && (t.Trying? <==> TriesAgain(w, s, a)) && (t.Trying? ==> t.attempt == 1)
    && (t.Blocked? <==> s.Trying? && a.ok && w.lock.Some?) && (t.Blocked? ==> t.attempt == s.attempt)
    && (t.Reclaiming? <==> s.Blocked? && !a.respected && w.lock.Some?)
    && (t.Reclaiming? ==> t.attempt == s.attempt && t.found == w.lock.value.nonce)
    && (t.Opened? <==> s.Trying? && a.ok && w.lock.None?)
    && (t.WriteFailed? <==> s.Opened? && !a.ok)
    && (t.Held? <==> s.Opened? && a.ok)
    && (t.Active? <==> (s.Held? && a.ok) || (s.Active? && !SeesOwn(w, n, a)) || s.Refreshing?)
    && (t.Refreshing? <==> s.Active? && SeesOwn(w, n, a))
    && (t.LeavingOwner? <==> s.Leaving? && SeesOwn(w, n, a))
    && (t.Clearing? <==> s.LeavingOwner? && a.ok && OwnPresence(w, n))
    && (t.Releasing? <==> (s.Held? && !a.ok) || (s.Leaving? && !SeesOwn(w, n, a))
                          || (s.LeavingOwner? && !(a.ok && OwnPresence(w, n))) || s.Clearing?)
    && (t.Removing? <==> s.Releasing? && SeesOwn(w, n, a))
    && !t.Leaving?
    && (t.Ended? <==> (s.Trying? && !a.ok) || (s.Blocked? && a.respected)
                      || (s.Blocked? && w.lock.None? && s.attempt != 0 && !a.respected)
                      || (s.Reclaiming? && !(s.attempt == 0 && a.ok)) || s.WriteFailed?
                      || (s.Releasing? && !SeesOwn(w, n, a)) || s.Removing? || s.Ended?)
  }

  /** Attempts are numbered 0 and 1. */
  ghost predicate TwoAttempts(s: Stage) { s.Trying? || s.Blocked? || s.Reclaiming? ==> s.attempt <= 1 }

  /** What the operation does: it creates the lock, removes whichever is there, or writes its nonce
      into its own; it publishes its own presence, or clears what is there. */
  ghost predicate Touches(w: World, n: nat, s: Stage, v: World, a: Answer)
    requires n < |w.sessions|
  {
    var done := a.ok || a.effect;
    && v.lock == (if s.Trying? && a.ok && w.lock.None? then Some(Lock(n, false))
                  else if (s.Reclaiming? || s.WriteFailed? || s.Removing?) && done then None
                  else if s.Opened? && done && w.lock.Some? && w.lock.value.nonce == n then Some(Lock(n, true))
                  else w.lock)
    && v.presence == (if (s.Held? || s.Refreshing?) && done then Some(Presence(w.sessions[n].pid, n))
                      else if s.Clearing? && done then None else w.presence)
    && v.reading == w.reading && v.passes == w.passes
  }

  lemma {:induction false} FilesExactly(w: World, n: nat, a: Answer)
    requires n < |w.sessions|
    ensures Touches(w, n, w.sessions[n].stage, FilesAfter(w, n, a), a)
  {
  }

  lemma {:induction false} StageExactly(w: World, n: nat, a: Answer)
    requires n < |w.sessions| && TwoAttempts(w.sessions[n].stage)
    ensures Comes(w, n, w.sessions[n].stage, StageAfter(w, n, a), a) && TwoAttempts(StageAfter(w, n, a))
  {
  }

  ghost predicate AllTwoAttempts(w: World) { forall n :: 0 <= n < |w.sessions| ==> TwoAttempts(w.sessions[n].stage) }

  lemma {:induction false} RunTwoAttempts(steps: seq<Step>)
    ensures AllTwoAttempts(Run(EMPTY, steps))
  {
    hide FilesAfter, StageAfter, TwoAttempts;
    if steps != [] {
      var w, s := Run(EMPTY, steps[..|steps| - 1]), steps[|steps| - 1];
      RunTwoAttempts(steps[..|steps| - 1]);
      if s.DoSession? && s.n < |w.sessions| { StageExactly(w, s.n, s.a); }
      FirstAttempt();
    }
  }

  lemma FirstAttempt()
    ensures TwoAttempts(Trying(0)) && TwoAttempts(Leaving)
  {
  }

  /** Every operation of a session, in every state of every run. */
  lemma {:induction false} SessionExactly(steps: seq<Step>, n: nat, a: Answer)
    requires n < |Run(EMPTY, steps).sessions|
    ensures var w := Run(EMPTY, steps); var v := Next(w, DoSession(n, a));
            && |v.sessions| == |w.sessions|
               && (forall m :: 0 <= m < |w.sessions| && m != n ==> v.sessions[m] == w.sessions[m])
            && v.sessions[n].pid == w.sessions[n].pid
            && Comes(w, n, w.sessions[n].stage, v.sessions[n].stage, a) && Touches(w, n, w.sessions[n].stage, v, a)
  {
    hide Run, FilesAfter, StageAfter, TwoAttempts, Comes;
    RunTwoAttempts(steps);
    FilesExactly(Run(EMPTY, steps), n, a);
    StageExactly(Run(EMPTY, steps), n, a);
  }

  /** The two halves of a check, and the beginning and end of a session. */
  lemma OthersExactly(w: World, s: Step)
    ensures s.DoBegin? ==> Next(w, s) == w.(sessions := w.sessions + [Session(s.pid, Trying(0))])
    ensures s.DoLeave? ==>
        var v := Next(w, s);
        && v == w.(sessions := v.sessions) && |v.sessions| == |w.sessions|
        && forall n :: 0 <= n < |w.sessions| ==>
             v.sessions[n] == if n == s.n && w.sessions[n].stage.Active? then Session(w.sessions[n].pid, Leaving)
               else w.sessions[n]
    ensures s.DoReadPresence? ==>
        var v := Next(w, s);
        && v == w.(reading := v.reading) && v.reading.Keys - {s.pid} == w.reading.Keys - {s.pid}
        && (forall p :: p in v.reading && p != s.pid ==> v.reading[p] == w.reading[p])
        && (s.pid in v.reading <==> w.presence.Some? && w.presence.value.pid == s.pid)
        && (s.pid in v.reading ==> v.reading[s.pid] == w.presence.value.nonce)
    ensures s.DoReadLock? ==>
        var v := Next(w, s);
        && v == w.(reading := w.reading - {s.pid}, passes := v.passes)
        && v.passes == (if s.pid in w.reading && w.lock == Some(Lock(w.reading[s.pid], true))
                        then w.passes + [Pass(s.pid, w.reading[s.pid])] else w.passes)
  {
  }
}
