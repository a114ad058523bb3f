/** The coordinator lease: a lock file and a presence file that any number of host
    commands create, touch, rewrite and remove, one file operation at a time. */
module LockSpec {
  import opened Wrappers

  /** How far one publication of presence has come.  The attempts to create the lock
      are counted; a command may crash at any stage, then it simply stays there. */
  datatype Stage =
    | Trying(attempt: nat)         // about to create the lock file
    | Blocked(attempt: nat)        // it exists; looking at the presence and its age
    | Reclaiming(attempt: nat, found: nat) // this lock was found stale; about to remove it
    | Opened                       // created, the nonce not yet written
    | WriteFailed                  // about to remove the file after a failed write
    | Held                         // acquired, presence not yet written
    | Active
    | Refreshing                   // own lock seen, about to touch it and rewrite the presence
    | Leaving | LeavingOwner | Clearing // cleanup: looking at the lock, at the presence, removing it
    | Releasing | Removing         // looking at the lock again, removing it
    | Ended

  datatype Session = Session(pid: nat, stage: Stage)

  /** The file at the lock's path.  Each nonce is used for one session, which
      creates at most one file, so the nonce also names the file; until it is
      written the file is empty. */
  datatype Lock = Lock(nonce: nat, written: bool)
  datatype Presence = Presence(pid: nat, nonce: nat)

  /** One ownership check that returned true. */
  datatype Pass = Pass(pid: nat, nonce: nat)

  /** `reading`: the nonces taken from the presence by checks that have not yet read
      the lock. */
  datatype World = World(lock: Option<Lock>, presence: Option<Presence>, sessions: seq<Session>,
                         reading: map<nat, nat>, passes: seq<Pass>)

  const EMPTY := World(None, None, [], map[], [])

  predicate Contains(w: World, nonce: nat) { w.lock == Some(Lock(nonce, true)) }

  /** How one file operation goes.  `respected`: a look at an existing lock finds that it must
      be respected, or cannot find out; `ok`: the operation reported no error; `effect`:
      it had its effect all the same. */
  datatype Answer = Answer(respected: bool, ok: bool, effect: bool)

  datatype Step =
    | DoBegin(pid: nat)
    | DoSession(n: nat, a: Answer) // the next operation of session n
    | DoLeave(n: nat)
    | DoReadPresence(pid: nat)     // the two halves of an ownership check
    | DoReadLock(pid: nat)

  const MAX_ATTEMPTS: nat := 2

  function Retry(attempt: nat): Stage { if attempt + 1 < MAX_ATTEMPTS then Trying(attempt + 1) else Ended }

  function At(w: World, n: nat, stage: Stage): World
    requires n < |w.sessions|
  {
    w.(sessions := w.sessions[n := w.sessions[n].(stage := stage)])
  }

  predicate Happens(a: Answer) { a.ok || a.effect }

  /** Removes whatever lock is at the path. */
  function Removed(w: World, a: Answer): World { if Happens(a) then w.(lock := None) else w }

  /** Writes the nonce into the file that session n created, which may no longer be the
      one at the path. */
  function Written(w: World, n: nat, a: Answer): World {
    if Happens(a) && w.lock.Some? && w.lock.value.nonce == n then w.(lock := Some(Lock(n, true))) else w
  }

  function Published(w: World, presence: Option<Presence>, a: Answer): World {
    if Happens(a) then w.(presence := presence) else w
  }

  /** What an operation of session n does to the files. */
  function FilesAfter(w: World, n: nat, a: Answer): (v: World)
    requires n < |w.sessions|
    ensures v.sessions == w.sessions && v.reading == w.reading && v.passes == w.passes
  {
    match w.sessions[n].stage
    case Trying(_) => if a.ok && w.lock.None? then w.(lock := Some(Lock(n, false))) else w
    case Reclaiming(_, _) => Removed(w, a)
    case WriteFailed => Removed(w, a)
    case Removing => Removed(w, a)
    case Opened => Written(w, n, a)
    case Held => Published(w, Some(Presence(w.sessions[n].pid, n)), a)
    case Refreshing => Published(w, Some(Presence(w.sessions[n].pid, n)), a)
    case Clearing => Published(w, None, a)
    case _ => w
  }

  /** And where it leaves the session. */
  function StageAfter(w: World, n: nat, a: Answer): Stage
    requires n < |w.sessions|
  {
    var own := a.ok && Contains(w, n);
    match w.sessions[n].stage
    case Trying(k) => if !a.ok then Ended else if w.lock.None? then Opened else Blocked(k)
    case Blocked(k) => if a.respected then Ended else if w.lock.None? then Retry(k)
        else Reclaiming(k, w.lock.value.nonce)
    case Reclaiming(k, _) => if a.ok then Retry(k) else Ended
    case Opened => if a.ok then Held else WriteFailed
    case Held => if a.ok then Active else Releasing
    case Active => if own then Refreshing else Active
    case Refreshing => Active
    case Leaving => if own then LeavingOwner else Releasing
    case LeavingOwner => if a.ok && w.presence == Some(Presence(w.sessions[n].pid, n)) then Clearing else Releasing
    case Clearing => Releasing
    case Releasing => if own then Removing else Ended
    case _ => Ended
  }

  /** One file operation of one session. */
  function Advance(w: World, n: nat, a: Answer): World
    requires n < |w.sessions|
  {
    At(FilesAfter(w, n, a), n, StageAfter(w, n, a))
  }

  /** The first half of a check: the presence must be the process's own. */
  function ReadPresence(w: World, pid: nat): World {
    if w.presence.Some? && w.presence.value.pid == pid then w.(reading := w.reading[pid := w.presence.value.nonce])
    else w.(reading := w.reading - {pid})
  }

  /** The second half: the lock must hold the nonce of that presence. */
  function ReadLock(w: World, pid: nat): World {
    if pid !in w.reading then w
    else if Contains(w, w.reading[pid]) then
      w.(reading := w.reading - {pid}, passes := w.passes + [Pass(pid, w.reading[pid])])
    else w.(reading := w.reading - {pid})
  }

  function Next(w: World, s: Step): World {
    match s
    case DoBegin(pid) => w.(sessions := w.sessions + [Session(pid, Trying(0))])
    case DoSession(n, a) => if n < |w.sessions| then Advance(w, n, a) else w
    case DoLeave(n) => if n < |w.sessions| && w.sessions[n].stage.Active? then At(w, n, Leaving) else w
    case DoReadPresence(pid) => ReadPresence(w, pid)
    case DoReadLock(pid) => ReadLock(w, pid)
  }

  // ---------------------------------------------------------------- invariant

  predicate Before(stage: Stage) { stage.Trying? || stage.Blocked? || stage.Reclaiming? }

  /** The nonce was created by this process. */
  ghost predicate Created(w: World, pid: nat, nonce: nat) {
    nonce < |w.sessions| && w.sessions[nonce].pid == pid
  }

  /** The file of this nonce will never again be the lock. */
  ghost predicate Gone(w: World, nonce: nat) {
    && nonce < |w.sessions| && !Before(w.sessions[nonce].stage)
    && (w.lock.Some? ==> w.lock.value.nonce != nonce)
  }

  ghost predicate LockMade(w: World) {
    w.lock.Some? ==> w.lock.value.nonce < |w.sessions| && !Before(w.sessions[w.lock.value.nonce].stage)
  }

  ghost predicate Honest(w: World) {
    && (w.presence.Some? ==> Created(w, w.presence.value.pid, w.presence.value.nonce))
    && (forall pid :: pid in w.reading ==> Created(w, pid, w.reading[pid]))
    && (forall k :: 0 <= k < |w.passes| ==> Created(w, w.passes[k].pid, w.passes[k].nonce))
  }

  /** Whoever passed before the last one to pass will never pass again. */
  ghost predicate Succession(w: World) {
    && (forall k :: 0 <= k < |w.passes| ==>
         w.passes[k].nonce < |w.sessions| && !Before(w.sessions[w.passes[k].nonce].stage))
    && (forall k :: 0 <= k < |w.passes| ==>
         w.passes[k].nonce == w.passes[|w.passes| - 1].nonce || Gone(w, w.passes[k].nonce))
    && (forall i, j, k :: 0 <= i < j < k < |w.passes| && w.passes[i].nonce == w.passes[k].nonce ==>
         w.passes[j].nonce == w.passes[i].nonce)
  }

  /** A lock that was found stale had been created. */
  ghost predicate FoundMade(w: World) {
    forall n :: 0 <= n < |w.sessions| && w.sessions[n].stage.Reclaiming? ==> Made(w, w.sessions[n].stage.found)
  }

  ghost predicate Made(w: World, nonce: nat) { nonce < |w.sessions| && !Before(w.sessions[nonce].stage) }

  ghost predicate Inv(w: World) { LockMade(w) && Honest(w) && Succession(w) && FoundMade(w) }

  // ---------------------------------------------------------------- one step

  /** What one operation does to the sessions: its own moves on, never back before
      the creation of the lock. */
  lemma {:induction false} AdvanceSessions(w: World, n: nat, a: Answer)
    requires n < |w.sessions|
    ensures var v := Advance(w, n, a);
            && |v.sessions| == |w.sessions| && v.sessions[n].pid == w.sessions[n].pid
            && (forall i :: 0 <= i < |w.sessions| && i != n ==> v.sessions[i] == w.sessions[i])
            && (!Before(w.sessions[n].stage) ==> !Before(v.sessions[n].stage))
            && v.reading == w.reading && v.passes == w.passes
  {
    hide FilesAfter, StageAfter;
    StageForward(w, n, a);
  }

  lemma StageForward(w: World, n: nat, a: Answer)
    requires n < |w.sessions|
    ensures !Before(w.sessions[n].stage) ==> !Before(StageAfter(w, n, a))
    ensures StageAfter(w, n, a).Reclaiming? ==> w.lock.Some? && w.lock.value.nonce == StageAfter(w, n, a).found
    ensures StageAfter(w, n, a).Removing? ==> Contains(w, n)
  {
  }

  /** And to the lock: only its own file can appear there. */
  lemma AdvanceLock(w: World, n: nat, a: Answer)
    requires n < |w.sessions|
    ensures var v := Advance(w, n, a);
            && (v.lock.Some? && v.lock != w.lock ==> v.lock.value.nonce == n && !Before(v.sessions[n].stage))
            && (v.lock.Some? && v.lock != w.lock && !Before(w.sessions[n].stage) ==>
                 w.lock.Some? && w.lock.value.nonce == n)
            && (v.presence == w.presence || v.presence.None? || v.presence.value == Presence(w.sessions[n].pid, n))
  {
  }

  lemma {:induction false} NextSessions(w: World, s: Step, n: nat)
    requires n < |w.sessions|
    ensures n < |Next(w, s).sessions| && Next(w, s).sessions[n].pid == w.sessions[n].pid
  {
    hide Advance;
    if s.DoSession? && s.n < |w.sessions| { AdvanceSessions(w, s.n, s.a); }
  }

  /** Only the own session writes a presence. */
  lemma {:induction false} NextPresence(w: World, s: Step)
    ensures var p := Next(w, s).presence;
            p == w.presence || p.None? || (p.value.nonce < |w.sessions| && p.value.pid == w.sessions[p.value.nonce].pid)
  {
    hide Advance;
    if s.DoSession? && s.n < |w.sessions| { AdvanceLock(w, s.n, s.a); }
  }

  lemma {:induction false} NextReading(w: World, s: Step, pid: nat)
    requires pid in Next(w, s).reading
    ensures (pid in w.reading && Next(w, s).reading[pid] == w.reading[pid])
         || (w.presence.Some? && w.presence.value == Presence(pid, Next(w, s).reading[pid]))
  {
    hide Advance;
    if s.DoSession? && s.n < |w.sessions| { AdvanceSessions(w, s.n, s.a); }
  }

  lemma {:induction false} NextHonest(w: World, s: Step)
    requires Honest(w)
    ensures Honest(Next(w, s))
  {
    hide Next, Contains;
    var v := Next(w, s);
    forall pid, n | Created(w, pid, n) ensures Created(v, pid, n) { NextSessions(w, s, n); }
    NextPresence(w, s);
    if v.presence.Some? && v.presence != w.presence { assert Created(w, v.presence.value.pid, v.presence.value.nonce); }
    forall pid | pid in v.reading ensures Created(v, pid, v.reading[pid]) { NextReading(w, s, pid); }
    NextPasses(w, s);
  }

  lemma {:induction false} NextMade(w: World, s: Step, n: nat)
    requires n < |w.sessions| && !Before(w.sessions[n].stage)
    ensures n < |Next(w, s).sessions| && !Before(Next(w, s).sessions[n].stage)
  {
    hide Advance;
    if s.DoSession? && s.n < |w.sessions| { AdvanceSessions(w, s.n, s.a); }
  }

  lemma {:induction false} NextLockMade(w: World, s: Step)
    requires LockMade(w)
    ensures LockMade(Next(w, s))
  {
    hide Advance, Before;
    if w.lock.Some? { NextMade(w, s, w.lock.value.nonce); }
    if s.DoSession? && s.n < |w.sessions| {
      AdvanceSessions(w, s.n, s.a);
      AdvanceLock(w, s.n, s.a);
    }
  }

  /** A lock that was replaced never comes back: a write to its file does not reach
      the path, and no session creates a second file. */
  lemma {:induction false} NextGone(w: World, s: Step, nonce: nat)
    requires Gone(w, nonce)
    ensures Gone(Next(w, s), nonce)
  {
    hide Advance, Before;
    NextMade(w, s, nonce);
    if s.DoSession? && s.n < |w.sessions| { AdvanceLock(w, s.n, s.a); }
  }

  lemma {:induction false} NextFoundMade(w: World, s: Step)
    requires LockMade(w) && FoundMade(w)
    ensures FoundMade(Next(w, s))
  {
    hide Next, Before;
    var v := Next(w, s);
    forall n | 0 <= n < |v.sessions| && v.sessions[n].stage.Reclaiming? ensures Made(v, v.sessions[n].stage.found) {
      NextReclaims(w, s, n);
      NextMade(w, s, v.sessions[n].stage.found);
    }
  }

  /** A session that reclaims did so before, or has just seen the lock at the path. */
  lemma {:induction false} NextReclaims(w: World, s: Step, n: nat)
    requires n < |Next(w, s).sessions| && Next(w, s).sessions[n].stage.Reclaiming?
    ensures n < |w.sessions|
    ensures var found := Next(w, s).sessions[n].stage.found;
            (w.sessions[n].stage.Reclaiming? && w.sessions[n].stage.found == found)
            || (w.lock.Some? && w.lock.value.nonce == found)
  {
    hide FilesAfter, StageAfter;
    if s.DoSession? && s.n < |w.sessions| { StageForward(w, s.n, s.a); }
  }

  lemma {:induction false} NextPasses(w: World, s: Step)
    ensures Next(w, s).passes == w.passes
         || (s.DoReadLock? && s.pid in w.reading && Contains(w, w.reading[s.pid]) && Next(w, s).lock == w.lock
             && Next(w, s).passes == w.passes + [Pass(s.pid, w.reading[s.pid])])
  {
    hide Advance;
    if s.DoSession? && s.n < |w.sessions| { AdvanceSessions(w, s.n, s.a); }
  }

  lemma {:induction false} NextSuccession(w: World, s: Step)
    requires LockMade(w) && Succession(w)
    ensures Succession(Next(w, s))
  {
    hide Next, Before, Gone;
    var v := Next(w, s);
    NextPasses(w, s);
    forall k | 0 <= k < |w.passes|
      ensures w.passes[k].nonce < |v.sessions| && !Before(v.sessions[w.passes[k].nonce].stage)
    {
      NextMade(w, s, w.passes[k].nonce);
    }
    forall k | 0 <= k < |w.passes| && Gone(w, w.passes[k].nonce) ensures Gone(v, w.passes[k].nonce) {
      NextGone(w, s, w.passes[k].nonce);
    }
    if v.passes != w.passes { NewPass(w, s); }
  }

  lemma {:induction false} NewPass(w: World, s: Step)
    requires LockMade(w) && Succession(w) && s.DoReadLock? && s.pid in w.reading && Contains(w, w.reading[s.pid])
    ensures Succession(Next(w, s))
  {
    hide Next, Succession;
    var n := w.reading[s.pid];
    assert Next(w, s)
            == w.(reading := w.reading - {s.pid}, passes := w.passes + [Pass(s.pid, n)]) by { Passing(w, s.pid); }
    OthersGone(w, n);
    Contiguous(w, s.pid, n);
  }

  lemma {:induction false} Passing(w: World, pid: nat)
    requires pid in w.reading && Contains(w, w.reading[pid])
    ensures Next(w, DoReadLock(pid))
            == w.(reading := w.reading - {pid}, passes := w.passes + [Pass(pid, w.reading[pid])])
  {
  }

  /** While the lock holds one nonce every other one that ever passed is gone. */
  lemma {:induction false} OthersGone(w: World, n: nat)
    requires LockMade(w) && Succession(w) && Contains(w, n)
    ensures forall k :: 0 <= k < |w.passes| ==> w.passes[k].nonce == n || Gone(w, w.passes[k].nonce)
    ensures forall k :: 0 <= k < |w.passes| && w.passes[k].nonce == n ==> w.passes[|w.passes| - 1].nonce == n
  {
    hide Before;
  }

  lemma {:induction false} Contiguous(w: World, pid: nat, n: nat)
    requires LockMade(w) && Succession(w)
    requires forall k :: 0 <= k < |w.passes| ==> w.passes[k].nonce == n || Gone(w, w.passes[k].nonce)
    requires forall k :: 0 <= k < |w.passes| && w.passes[k].nonce == n ==> w.passes[|w.passes| - 1].nonce == n
    requires Contains(w, n)
    ensures forall reading :: Succession(w.(reading := reading, passes := w.passes + [Pass(pid, n)]))
  {
    hide Before;
    var last := |w.passes| - 1;
    forall i, j | 0 <= i < j <= last && w.passes[i].nonce == n ensures w.passes[j].nonce == n {
      if j < last { assert w.passes[i].nonce == w.passes[last].nonce; }
    }
    forall reading, k | 0 <= k < |w.passes| && Gone(w, w.passes[k].nonce)
      ensures Gone(w.(reading := reading, passes := w.passes + [Pass(pid, n)]), w.passes[k].nonce)
    {
    }
  }

  lemma {:induction false} NextInv(w: World, s: Step)
    requires Inv(w)
    ensures Inv(Next(w, s))
  {
    hide Next, LockMade, Honest, Succession, FoundMade;
    NextHonest(w, s);
    NextLockMade(w, s);
    NextFoundMade(w, s);
    NextSuccession(w, s);
  }

  // ---------------------------------------------------------------- whole runs

  function Run(w: World, steps: seq<Step>): World {
    if steps == [] then w else Next(Run(w, steps[..|steps| - 1]), steps[|steps| - 1])
  }

  lemma {:induction false} RunInv(w: World, steps: seq<Step>)
    requires Inv(w)
    ensures Inv(Run(w, steps))
  {
    if steps != [] {
      RunInv(w, steps[..|steps| - 1]);
      NextInv(Run(w, steps[..|steps| - 1]), steps[|steps| - 1]);
    }
  }

  /** A check that passes has read its own nonce in the lock: one that this process
      created and that is in the file at that moment. */
  lemma {:induction false} PassMeansOwnLock(steps: seq<Step>, pid: nat)
    requires var w := Run(EMPTY, steps); Next(w, DoReadLock(pid)).passes != w.passes
    ensures var w := Run(EMPTY, steps); w.lock.Some? && w.lock.value.written && Created(w, pid, w.lock.value.nonce)
  {
    RunInv(EMPTY, steps);
  }

  /** So two processes never pass on the same lock. */
  lemma {:induction false} OneProcessPerLock(steps: seq<Step>, i: nat, j: nat)
    requires var w := Run(EMPTY, steps); i < |w.passes| && j < |w.passes| && w.passes[i].nonce == w.passes[j].nonce
    ensures var w := Run(EMPTY, steps); w.passes[i].pid == w.passes[j].pid
  {
    RunInv(EMPTY, steps);
  }

  /** And once another lock let somebody pass, a process passes again only after
      acquiring anew, with a new nonce. */
  lemma {:induction false} ReplacedNeverPasses(steps: seq<Step>, i: nat, j: nat, k: nat)
    requires var w := Run(EMPTY, steps); i < j < k < |w.passes| && w.passes[i].nonce != w.passes[j].nonce
    ensures var w := Run(EMPTY, steps); w.passes[k].nonce != w.passes[i].nonce
  {
    RunInv(EMPTY, steps);
  }

  /** Also without anybody else passing: from the moment its lock is no longer at the
      path no check passes on that nonce. */
  lemma {:induction false} GoneStaysGone(w: World, steps: seq<Step>, nonce: nat)
    requires Inv(w) && Gone(w, nonce)
    ensures Gone(Run(w, steps), nonce) && |Run(w, steps).passes| >= |w.passes|
    ensures forall k :: |w.passes| <= k < |Run(w, steps).passes| ==> Run(w, steps).passes[k].nonce != nonce
  {
    if steps != [] {
      var m := Run(w, steps[..|steps| - 1]);
      GoneStaysGone(w, steps[..|steps| - 1], nonce);
      NextGone(m, steps[|steps| - 1], nonce);
      NextPasses(m, steps[|steps| - 1]);
    }
  }

  // ---------------------------------------------------------------- removing another's lock

  predicate Removes(stage: Stage) { stage.Reclaiming? || stage.WriteFailed? || stage.Removing? }

  /** The lock that a removal is meant for: the one found stale, or the own one. */
  function MeantBy(w: World, n: nat): nat
    requires n < |w.sessions|
  {
    if w.sessions[n].stage.Reclaiming? then w.sessions[n].stage.found else n
  }

  /** The next operation of session n removes a lock that it is not meant for. */
  predicate HitsAnother(w: World, n: nat, a: Answer)
    requires n < |w.sessions|
  {
    w.lock.Some? && w.lock.value.nonce != MeantBy(w, n) && Advance(w, n, a).lock.None?
  }

  /** At each of the three places, in every run: another lock is removed exactly if the
      removal succeeds when the lock it is meant for has left the path for good and a
      different one is there. */
  lemma {:induction false} HitsAnotherExactly(steps: seq<Step>, n: nat, a: Answer)
    requires n < |Run(EMPTY, steps).sessions| && Removes(Run(EMPTY, steps).sessions[n].stage)
    ensures var w := Run(EMPTY, steps);
            HitsAnother(w, n, a) <==> Happens(a) && w.lock.Some? && Gone(w, MeantBy(w, n))
  {
    hide Run, Honest, Succession;
    RunInv(EMPTY, steps);
    assert Made(Run(EMPTY, steps), MeantBy(Run(EMPTY, steps), n));
  }

  lemma {:induction false} RunTwice(w: World, steps: seq<Step>, more: seq<Step>)
    ensures Run(Run(w, steps), more) == Run(w, steps + more)
  {
    hide Next;
    if more == [] {
      assert steps + more == steps;
    } else {
      var n := |more| - 1;
      RunTwice(w, steps, more[..n]);
      assert (steps + more)[..|steps + more| - 1] == steps + more[..n];
    }
  }

  ghost predicate GoneMeanwhile(w: World, steps: seq<Step>, nonce: nat) {
    exists k :: 0 <= k <= |steps| && Gone(Run(w, steps[..k]), nonce)
  }

  /** A lock is still at the path exactly if it never left it. */
  lemma {:induction false} GoneOnceGoneNow(w: World, steps: seq<Step>, nonce: nat)
    requires Inv(w)
    ensures GoneMeanwhile(w, steps, nonce) <==> Gone(Run(w, steps), nonce)
  {
    hide Run, Gone, Inv;
    assert steps[..|steps|] == steps;
    if GoneMeanwhile(w, steps, nonce) {
      var k :| 0 <= k <= |steps| && Gone(Run(w, steps[..k]), nonce);
      RunInv(w, steps[..k]);
      GoneStaysGone(Run(w, steps[..k]), steps[k..], nonce);
      RunTwice(w, steps[..k], steps[k..]);
      assert steps[..k] + steps[k..] == steps;
    }
  }

  /** A look at the lock, by a session that leaves or by one that finds it stale, protects
      the removal that follows exactly if in between the lock never left the path, or
      none is at the path at all.  `steps` is what happens before the look, `more`
      what others do between it and the removal. */
  lemma {:induction false} LookProtectsExactly(steps: seq<Step>, n: nat, look: Answer, more: seq<Step>, a: Answer)
    requires n < |Run(EMPTY, steps).sessions|
    requires var u := Advance(Run(EMPTY, steps), n, look);
             u.sessions[n].stage.Removing? || u.sessions[n].stage.Reclaiming?
    requires !Removes(Run(EMPTY, steps).sessions[n].stage)
    requires forall s :: s in more ==> !(s.DoSession? || s.DoLeave?) || s.n != n
    ensures var u := Advance(Run(EMPTY, steps), n, look); var v := Run(u, more);
            && u.lock.Some? && u.lock.value.nonce == MeantBy(u, n)
            && n < |v.sessions| && v.sessions[n] == u.sessions[n]
            && (HitsAnother(v, n, a) <==> Happens(a) && v.lock.Some? && GoneMeanwhile(u, more, MeantBy(u, n)))
  {
    hide Run, Inv, Gone, HitsAnother, Happens, Advance, GoneMeanwhile, Removes;
    var w := Run(EMPTY, steps);
    var first := DoSession(n, look);
    var u := Advance(w, n, look);
    LookSees(w, n, look);
    assert Removes(u.sessions[n].stage) by { StageRemoves(u.sessions[n].stage); }
    assert Run(EMPTY, steps + [first]) == u by { RunOne(EMPTY, steps, first); }
    RunTwice(EMPTY, steps + [first], more);
    Untouched(u, more, n);
    RunInv(EMPTY, steps + [first]);
    GoneOnceGoneNow(u, more, MeantBy(u, n));
    HitsAnotherExactly(steps + [first] + more, n, a);
  }

  lemma StageRemoves(stage: Stage)
    ensures stage.Removing? || stage.Reclaiming? ==> Removes(stage)
  {
  }

  /** What the look has seen, it did not change. */
  lemma LookSees(w: World, n: nat, a: Answer)
    requires n < |w.sessions| && !Removes(w.sessions[n].stage)
    requires Advance(w, n, a).sessions[n].stage.Removing? || Advance(w, n, a).sessions[n].stage.Reclaiming?
    ensures var u := Advance(w, n, a);
            |u.sessions| == |w.sessions| && u.lock.Some? && u.lock.value.nonce == MeantBy(u, n)
  {
  }

  lemma {:induction false} RunOne(w: World, steps: seq<Step>, s: Step)
    ensures Run(w, steps + [s]) == Next(Run(w, steps), s)
  {
    assert (steps + [s])[..|steps|] == steps;
  }

  lemma {:induction false} Untouched(w: World, steps: seq<Step>, n: nat)
    requires n < |w.sessions| && forall s :: s in steps ==> !(s.DoSession? || s.DoLeave?) || s.n != n
    ensures n < |Run(w, steps).sessions| && Run(w, steps).sessions[n] == w.sessions[n]
  {
    hide Advance;
    if steps != [] {
      var k := |steps| - 1;
      var s := steps[k];
      Untouched(w, steps[..k], n);
      assert s in steps;
      if s.DoSession? && s.n < |Run(w, steps[..k]).sessions| { AdvanceSessions(Run(w, steps[..k]), s.n, s.a); }
    }
  }

  /** A lock that holds its nonce is still there, or gone for good. */
  lemma {:induction false} HeldOrGone(w: World, steps: seq<Step>, nonce: nat)
    requires LockMade(w) && Contains(w, nonce)
    ensures Contains(Run(w, steps), nonce) <==> !Gone(Run(w, steps), nonce)
    ensures w.passes <= Run(w, steps).passes
  {
    hide Next, Gone;
    if steps == [] { assert !Gone(w, nonce) by { NotGone(w, nonce); } }
    else {
      var m, s := Run(w, steps[..|steps| - 1]), steps[|steps| - 1];
      HeldOrGone(w, steps[..|steps| - 1], nonce);
      NextPasses(m, s);
      if Gone(m, nonce) {
        NextGone(m, s, nonce);
        NotGone(Next(m, s), nonce);
      } else {
        assert Made(m, nonce) by { MadeStays(w, steps[..|steps| - 1], nonce); }
        NextHeld(m, s, nonce);
      }
    }
  }

  lemma NotGone(w: World, nonce: nat)
    ensures Contains(w, nonce) ==> !Gone(w, nonce)
  {
  }

  lemma {:induction false} MadeStays(w: World, steps: seq<Step>, nonce: nat)
    requires Made(w, nonce)
    ensures Made(Run(w, steps), nonce)
  {
    hide Next, Before;
    if steps != [] {
      MadeStays(w, steps[..|steps| - 1], nonce);
      NextMade(Run(w, steps[..|steps| - 1]), steps[|steps| - 1], nonce);
    }
  }

  /** A lock that holds its nonce stays as it is, or leaves the path. */
  lemma {:induction false} NextHeld(w: World, s: Step, nonce: nat)
    requires Contains(w, nonce) && Made(w, nonce)
    ensures Contains(Next(w, s), nonce) <==> !Gone(Next(w, s), nonce)
  {
    hide Advance, Before;
    NextMade(w, s, nonce);
    if s.DoSession? && s.n < |w.sessions| { AdvanceHeld(w, s.n, s.a); }
  }

  lemma AdvanceHeld(w: World, n: nat, a: Answer)
    requires n < |w.sessions| && w.lock.Some? && w.lock.value.written
    ensures Advance(w, n, a).lock == w.lock || Advance(w, n, a).lock.None?
  {
  }

  // ---------------------------------------------------------------- that it happens

  /** A world that some run from the start reaches. */
  ghost predicate Reachable(w: World) { exists steps :: Run(EMPTY, steps) == w }

  lemma {:induction false} Then(w: World, s: Step) returns (v: World)
    requires Reachable(w)
    ensures v == Next(w, s) && Reachable(v)
  {
    var steps :| Run(EMPTY, steps) == w;
    v := Next(w, s);
    RunOne(EMPTY, steps, s);
    assert Run(EMPTY, steps + [s]) == v;
  }

  const FINE := Answer(false, true, true)

  lemma {:induction false} AboutToRelease() returns (w: World)
    ensures Reachable(w) && w == World(Some(Lock(0, true)), None, [Session(1, Removing)], map[], [])
  {
    hide Reachable;
    StartReachable();
    w := Then(EMPTY, DoBegin(1));
    w := Then(w, DoSession(0, FINE));
    w := Then(w, DoSession(0, FINE));
    w := Then(w, DoSession(0, FINE));
    assert w == World(Some(Lock(0, true)), Some(Presence(1, 0)), [Session(1, Active)], map[], []);
    w := Then(w, DoLeave(0));
    w := Then(w, DoSession(0, FINE));
    w := Then(w, DoSession(0, FINE));
    assert w == World(Some(Lock(0, true)), Some(Presence(1, 0)), [Session(1, Clearing)], map[], []);
    w := Then(w, DoSession(0, FINE));
    w := Then(w, DoSession(0, FINE));
  }

  /** A process that leaves removes the lock that another one has acquired after it looked. */
  lemma {:induction false} ReleaseMayRemoveAnothersLock() returns (w: World)
    ensures Reachable(w) && |w.sessions| == 2 && w.sessions[0].pid != w.sessions[1].pid
    ensures w.sessions[0].stage.Removing? && w.sessions[1].stage.Held? && Contains(w, 1) && HitsAnother(w, 0, FINE)
  {
    hide Reachable;
    w := AboutToRelease();
    w := Then(w, DoBegin(2));
    w := Then(w, DoSession(1, FINE));
    w := Then(w, DoSession(1, FINE));
    w := Then(w, DoSession(1, FINE));
    assert w == World(None, None, [Session(1, Removing), Session(2, Trying(1))], map[], []);
    w := Then(w, DoSession(1, FINE));
    w := Then(w, DoSession(1, FINE));
  }

  /** The first process has crashed holding the lock, and two others have found it stale. */
  lemma {:induction false} TwoReclaimers() returns (w: World)
    ensures Reachable(w)
    ensures w == World(Some(Lock(0, true)), None,
                       [Session(1, Held), Session(2, Reclaiming(0, 0)), Session(3, Reclaiming(0, 0))], map[], [])
  {
    hide Reachable;
    StartReachable();
    w := Then(EMPTY, DoBegin(1));
    w := Then(w, DoSession(0, FINE));
    w := Then(w, DoSession(0, FINE));
    assert w == World(Some(Lock(0, true)), None, [Session(1, Held)], map[], []);
    w := Then(w, DoBegin(2));
    w := Then(w, DoSession(1, FINE));
    w := Then(w, DoSession(1, FINE));
    assert w == World(Some(Lock(0, true)), None, [Session(1, Held), Session(2, Reclaiming(0, 0))], map[], []);
    w := Then(w, DoBegin(3));
    w := Then(w, DoSession(2, FINE));
    w := Then(w, DoSession(2, FINE));
  }

  /** One of them reclaims the lock and acquires its own, which the other then removes. */
  lemma {:induction false} ReclaimMayRemoveAnothersLock() returns (w: World)
    ensures Reachable(w) && |w.sessions| == 3 && w.sessions[1].pid != w.sessions[2].pid
    ensures w.sessions[1].stage.Held? && w.sessions[2].stage.Reclaiming? && Contains(w, 1) && HitsAnother(w, 2, FINE)
  {
    hide Reachable;
    w := TwoReclaimers();
    w := Then(w, DoSession(1, FINE));
    assert w == World(None, None, [Session(1, Held), Session(2, Trying(1)), Session(3, Reclaiming(0, 0))], map[], []);
    w := Then(w, DoSession(1, FINE));
    w := Then(w, DoSession(1, FINE));
  }

  lemma {:induction false} StartReachable()
    ensures Reachable(EMPTY)
  {
    assert Run(EMPTY, []) == EMPTY;
  }
}
