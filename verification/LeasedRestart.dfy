/** The restart protocol under the coordinator lease: a follower takes a request up only
    after its own process has passed an ownership check. */
module LeasedRestart {
  import opened Wrappers
  import LockSpec
  import RestartSpec

  /** `pids`: the process of each follower; `permits`: its check that has passed and was not
      used yet; `grants`: the one with which it took its last request; `backing`: for
      each entry of the log with which a request was acted on, the check behind it.
      A check is named by its position among the passes of the lease. */
  datatype Both = Both(lease: LockSpec.World, files: RestartSpec.World, pids: seq<nat>,
                       permits: map<nat, nat>, grants: map<nat, nat>, backing: map<nat, nat>)

  datatype Step =
    | DoLease(op: LockSpec.Step)       // any operation of anybody on the lease
    | DoFiles(step: RestartSpec.Step)  // any other one, but followers take requests up only as below
    | DoAttach(pid: nat)
    | DoLookPresence(f: nat)           // the two halves of the check of follower f
    | DoLookLock(f: nat)
    | DoTake(f: nat, ok: bool)         // then it reads the request, or ends if the check failed

  function Start(config: Option<RestartSpec.Config>, service: Option<RestartSpec.Config>): Both {
    Both(LockSpec.EMPTY, RestartSpec.Start(config, service), [], map[], map[], map[])
  }

  predicate Idles(b: Both, f: nat) { f < |b.files.tasks| && b.files.tasks[f].Idle? }

  predicate Acts(b: Both, s: RestartSpec.Step) {
    s.DoTask? && s.f < |b.files.tasks| && b.files.tasks[s.f].HasRequest?
    && |RestartSpec.Next(b.files, s).log| > |b.files.log|
  }

  /** What a step is to the lease, and to the files. */
  function OnLease(b: Both, s: Step): seq<LockSpec.Step> {
    match s
    case DoLease(x) => [x]
    case DoLookPresence(f) => if f < |b.pids| then [LockSpec.DoReadPresence(b.pids[f])] else []
    case DoLookLock(f) => if f < |b.pids| then [LockSpec.DoReadLock(b.pids[f])] else []
    case _ => []
  }

  function OnFiles(b: Both, s: Step): seq<RestartSpec.Step> {
    match s
    case DoFiles(x) => if x.DoAttach? || (x.DoTask? && Idles(b, x.f)) then [] else [x]
    case DoAttach(_) => [RestartSpec.DoAttach]
    case DoTake(f, ok) =>
      if Idles(b, f) then [RestartSpec.DoTask(f, RestartSpec.Answer(ok, false, f in b.permits, 0))] else []
    case _ => []
  }

  function Next(b: Both, s: Step): Both {
    var r := b.(lease := LockSpec.Run(b.lease, OnLease(b, s)), files := RestartSpec.Run(b.files, OnFiles(b, s)));
    match s
    case DoAttach(pid) => r.(pids := b.pids + [pid])
    case DoLookLock(f) =>
      if |r.lease.passes| > |b.lease.passes| then r.(permits := b.permits[f := |b.lease.passes|])
      else r.(permits := b.permits - {f})
    case DoTake(f, _) =>
      r.(permits := b.permits - {f},
         grants := if Idles(b, f) && f in b.permits then b.grants[f := b.permits[f]] else b.grants)
    case DoFiles(x) =>
      if Acts(b, x) && x.f in b.grants then r.(backing := b.backing[|b.files.log| := b.grants[x.f]]) else r
    case _ => r
  }

  function Run(b: Both, steps: seq<Step>): Both {
    if steps == [] then b else Next(Run(b, steps[..|steps| - 1]), steps[|steps| - 1])
  }

  // ---------------------------------------------------------------- both protocols as they were

  lemma {:induction false} LeaseTwice(w: LockSpec.World, steps: seq<LockSpec.Step>, more: seq<LockSpec.Step>)
    ensures LockSpec.Run(LockSpec.Run(w, steps), more) == LockSpec.Run(w, steps + more)
  {
    LockSpec.RunTwice(w, steps, more);
  }

  lemma {:induction false} FilesTwice(w: RestartSpec.World, steps: seq<RestartSpec.Step>, more: seq<RestartSpec.Step>)
    requires |more| <= 1
    ensures RestartSpec.Run(RestartSpec.Run(w, steps), more) == RestartSpec.Run(w, steps + more)
  {
    hide RestartSpec.Next;
    if more == [] { assert steps + more == steps; }
    else {
      assert (steps + more)[..|steps|] == steps && more[..0] == [];
    }
  }

  /** Seen from the lease a run is one of the lease, and from the files one of the restart
      protocol: what was proved of either holds here. */
  lemma {:induction false} Projects(b: Both, steps: seq<Step>)
      returns (lease: seq<LockSpec.Step>, files: seq<RestartSpec.Step>)
    ensures Run(b, steps).lease == LockSpec.Run(b.lease, lease)
    ensures Run(b, steps).files == RestartSpec.Run(b.files, files)
  {
    hide LockSpec.Run, RestartSpec.Run, OnLease;
    if steps == [] {
      lease, files := [], [];
      assert LockSpec.Run(b.lease, []) == b.lease && RestartSpec.Run(b.files, []) == b.files by { NothingDone(b); }
    } else {
      var n := |steps| - 1;
      var m := Run(b, steps[..n]);
      lease, files := Projects(b, steps[..n]);
      LeaseTwice(b.lease, lease, OnLease(m, steps[n]));
      FilesTwice(b.files, files, OnFiles(m, steps[n]));
      lease, files := lease + OnLease(m, steps[n]), files + OnFiles(m, steps[n]);
    }
  }

  lemma NothingDone(b: Both)
    ensures LockSpec.Run(b.lease, []) == b.lease && RestartSpec.Run(b.files, []) == b.files
  {
  }

  // ---------------------------------------------------------------- invariant

  /** The k-th pass is one of the process of follower f. */
  ghost predicate Of(b: Both, f: nat, k: nat) {
    f < |b.pids| && k < |b.lease.passes| && b.lease.passes[k].pid == b.pids[f]
  }

  ghost predicate ActedIn(b: Both, i: nat) { i < |b.files.log| && b.files.log[i].Acted? }

  ghost predicate Named(b: Both) {
    && |b.pids| == |b.files.tasks|
    && (forall f :: f in b.permits ==> Of(b, f, b.permits[f]) && (f in b.grants ==> b.grants[f] < b.permits[f]))
    && (forall f :: f in b.grants ==> Of(b, f, b.grants[f]))
    && (forall f :: 0 <= f < |b.files.tasks| && b.files.tasks[f].HasRequest? ==> f in b.grants)
  }

  /** An entry is backed by a check of its follower's process, no later than the one with
      which that follower took its last request. */
  ghost predicate Behind(b: Both, i: nat)
    requires i < |b.files.log| && b.files.log[i].Acted?
  {
    var f := b.files.log[i].f;
    && i in b.backing && Of(b, f, b.backing[i]) && f in b.grants && b.backing[i] <= b.grants[f]
    && (f < |b.files.tasks| && b.files.tasks[f].HasRequest? ==> b.backing[i] < b.grants[f])
  }

  /** Two entries of one follower. */
  ghost predicate Twice(b: Both, i: nat, j: nat) {
    i < j && ActedIn(b, i) && ActedIn(b, j) && b.files.log[i].f == b.files.log[j].f
  }

  ghost predicate Ordered(b: Both) {
    && (forall i :: 0 <= i < |b.files.log| && b.files.log[i].Acted? ==> Behind(b, i))
    && (forall i, j :: Twice(b, i, j) && i in b.backing && j in b.backing ==> b.backing[i] < b.backing[j])
  }

  ghost predicate Inv(b: Both) { Named(b) && Ordered(b) }

  /** What one operation on the files does to tasks and log. */
  lemma FilesMove(w: RestartSpec.World, x: RestartSpec.Step)
    ensures var v := RestartSpec.Next(w, x);
            && |v.tasks| == |w.tasks| + (if x.DoAttach? then 1 else 0)
            && w.log <= v.log && |v.log| <= |w.log| + 1
            && (|v.log| > |w.log| && v.log[|w.log|].Acted? ==>
                 x.DoTask? && x.f < |w.tasks| && w.tasks[x.f].HasRequest? && v.log[|w.log|].f == x.f)
            && (x.DoTask? && x.f < |w.tasks| && w.tasks[x.f].HasRequest? ==>
                 !v.tasks[x.f].HasRequest? && (|v.log| > |w.log| ==> v.log[|w.log|].Acted?))
            && (forall g ::
                 0 <= g < |v.tasks| && v.tasks[g].HasRequest? && !(g < |w.tasks| && w.tasks[g].HasRequest?) ==>
                 x.DoTask? && x.f == g && g < |w.tasks| && w.tasks[g].Idle? && x.a.owned)
  {
  }

  /** And one on the lease to the passes. */
  lemma {:induction false} LeaseMoves(b: Both, s: Step)
    ensures var v := LockSpec.Run(b.lease, OnLease(b, s)).passes;
            && b.lease.passes <= v && |v| <= |b.lease.passes| + 1
            && (|v| > |b.lease.passes| && s.DoLookLock? ==> s.f < |b.pids| && v[|b.lease.passes|].pid == b.pids[s.f])
  {
    hide LockSpec.Next;
    var ops := OnLease(b, s);
    if ops != [] {
      assert ops[..0] == [];
      LockSpec.NextPasses(b.lease, ops[0]);
    }
  }

  lemma {:induction false} FilesOnce(b: Both, s: Step)
    ensures OnFiles(b, s) == [] ==> RestartSpec.Run(b.files, OnFiles(b, s)) == b.files
    ensures OnFiles(b, s) != [] ==>
        RestartSpec.Run(b.files, OnFiles(b, s)) == RestartSpec.Next(b.files, OnFiles(b, s)[0])
  {
    hide RestartSpec.Next;
    var ops := OnFiles(b, s);
    if ops != [] { assert ops[..0] == []; }
  }

  lemma {:induction false} LeaseDoes(b: Both, s: Step)
    requires s.DoLease? || s.DoLookPresence? || s.DoLookLock?
    ensures var v := Next(b, s);
            && v == b.(lease := v.lease, permits := v.permits)
            && b.lease.passes <= v.lease.passes && |v.lease.passes| <= |b.lease.passes| + 1
            && (v.permits == b.permits || (s.DoLookLock? && v.permits == b.permits - {s.f})
                || (s.DoLookLock? && |v.lease.passes| > |b.lease.passes| && s.f < |b.pids|
                    && v.permits == b.permits[s.f := |b.lease.passes|]
                    && v.lease.passes[|b.lease.passes|].pid == b.pids[s.f]))
  {
    hide LockSpec.Run, OnLease;
    FilesOnce(b, s);
    LeaseMoves(b, s);
  }

  lemma MorePasses(b: Both, v: Both)
    requires b.lease.passes <= v.lease.passes && b.pids <= v.pids
    ensures forall f, k :: Of(b, f, k) ==> Of(v, f, k)
  {
  }

  lemma {:induction false} LeaseOnce(b: Both, s: Step)
    ensures OnLease(b, s) == [] ==> LockSpec.Run(b.lease, OnLease(b, s)) == b.lease
    ensures OnLease(b, s) != [] ==> LockSpec.Run(b.lease, OnLease(b, s)) == LockSpec.Next(b.lease, OnLease(b, s)[0])
  {
    hide LockSpec.Next;
    var ops := OnLease(b, s);
    if ops != [] { assert ops[..0] == []; }
  }

  /** A step on the lease alone. */
  lemma {:induction false} LeaseKeeps(b: Both, s: Step)
    requires Inv(b) && (s.DoLease? || s.DoLookPresence? || s.DoLookLock?)
    ensures Inv(Next(b, s))
  {
    hide Next, Of;
    LeaseDoes(b, s);
    var v := Next(b, s);
    MorePasses(b, v);
    assert Named(v) by { NamedStill(b, v); }
    forall i | 0 <= i < |v.files.log| && v.files.log[i].Acted? ensures Behind(v, i) { assert Behind(b, i); }
  }

  ghost predicate KeptOrNew(b: Both, v: Both, f: nat)
    requires f in v.permits
  {
    || (f in b.permits && v.permits[f] == b.permits[f])
    || (f < |b.pids| && v.permits[f] == |b.lease.passes| < |v.lease.passes|
        && v.lease.passes[v.permits[f]].pid == b.pids[f])
  }

  lemma {:induction false} NamedStill(b: Both, v: Both)
    requires Named(b) && v == b.(lease := v.lease, permits := v.permits) && b.lease.passes <= v.lease.passes
    requires forall f :: f in v.permits ==> KeptOrNew(b, v, f)
    ensures Named(v)
  {
    MorePasses(b, v);
  }

  lemma {:induction false} AttachDoes(b: Both, s: Step)
    requires s.DoAttach?
    ensures var v := Next(b, s);
            && v == b.(files := v.files, pids := b.pids + [s.pid])
            && v.files.log == b.files.log && v.files.tasks == b.files.tasks + [RestartSpec.Idle]
  {
    hide LockSpec.Next;
    FilesOnce(b, s);
  }

  lemma {:induction false} AttachKeeps(b: Both, s: Step)
    requires Inv(b) && s.DoAttach?
    ensures Inv(Next(b, s))
  {
    hide Next, Of;
    AttachDoes(b, s);
    var v := Next(b, s);
    MorePasses(b, v);
    assert Named(v);
    forall i | 0 <= i < |v.files.log| && v.files.log[i].Acted? ensures Behind(v, i) { assert Behind(b, i); }
  }

  /** What a follower that takes a request up changes. */
  lemma {:induction false} TakeDoes(b: Both, s: Step)
    requires s.DoTake?
    ensures var v := Next(b, s);
            && v.lease == b.lease && v.pids == b.pids && v.backing == b.backing
            && v.files.log == b.files.log && |v.files.tasks| == |b.files.tasks| && v.permits == b.permits - {s.f}
            && v.grants == (if Idles(b, s.f) && s.f in b.permits then b.grants[s.f := b.permits[s.f]] else b.grants)
            && (forall g ::
                 0 <= g < |v.files.tasks| && v.files.tasks[g].HasRequest? && !b.files.tasks[g].HasRequest? ==>
                 g == s.f && Idles(b, g) && g in b.permits)
  {
    FilesOnce(b, s);
  }

  lemma {:induction false} TakeKeeps(b: Both, s: Step)
    requires Inv(b) && s.DoTake?
    ensures Inv(Next(b, s))
  {
    hide Next, Of;
    TakeDoes(b, s);
    var v := Next(b, s);
    assert forall f, k :: Of(b, f, k) <==> Of(v, f, k) by { SameProcesses(b, v); }
    assert Named(v);
    forall i | 0 <= i < |v.files.log| && v.files.log[i].Acted? ensures Behind(v, i) { assert Behind(b, i); }
  }

  lemma SameProcesses(b: Both, v: Both)
    requires v.lease == b.lease && v.pids == b.pids
    ensures forall f, k :: Of(b, f, k) <==> Of(v, f, k)
  {
  }

  /** What any other operation on the files changes. */
  lemma {:induction false} FilesDo(b: Both, s: Step)
    requires s.DoFiles?
    ensures var v, x := Next(b, s), s.step;
            var acted := |v.files.log| > |b.files.log| && v.files.log[|b.files.log|].Acted?;
            && v.lease == b.lease && v.pids == b.pids && v.permits == b.permits && v.grants == b.grants
            && |v.files.tasks| == |b.files.tasks| && b.files.log <= v.files.log && |v.files.log| <= |b.files.log| + 1
            && (acted ==> x.DoTask? && x.f < |b.files.tasks| && v.files.log[|b.files.log|].f == x.f)
            && (acted ==> b.files.tasks[x.f].HasRequest? && !v.files.tasks[x.f].HasRequest?)
            && v.backing == (if acted && x.f in b.grants then b.backing[|b.files.log| := b.grants[x.f]] else b.backing)
            && (forall g :: 0 <= g < |v.files.tasks| && v.files.tasks[g].HasRequest? ==> b.files.tasks[g].HasRequest?)
  {
    hide RestartSpec.Next;
    FilesOnce(b, s);
    FilesMove(b.files, s.step);
  }

  lemma {:induction false} FilesKeep(b: Both, s: Step)
    requires Inv(b) && s.DoFiles?
    ensures Inv(Next(b, s))
  {
    hide Next, Of;
    FilesDo(b, s);
    var v := Next(b, s);
    assert forall f, k :: Of(b, f, k) <==> Of(v, f, k) by { SameProcesses(b, v); }
    assert Named(v);
    forall i | 0 <= i < |v.files.log| && v.files.log[i].Acted? ensures Behind(v, i) {
      if i < |b.files.log| { assert v.files.log[i] == b.files.log[i] && Behind(b, i); }
    }
  }

  lemma {:induction false} NextInv(b: Both, s: Step)
    requires Inv(b)
    ensures Inv(Next(b, s))
  {
    hide Next, Inv;
    match s
    case DoAttach(_) => AttachKeeps(b, s);
    case DoTake(_, _) => TakeKeeps(b, s);
    case DoFiles(_) => FilesKeep(b, s);
    case _ => LeaseKeeps(b, s);
  }

  lemma {:induction false} RunInv(b: Both, steps: seq<Step>)
    requires Inv(b)
    ensures Inv(Run(b, steps))
  {
    hide Next, Inv;
    if steps != [] {
      RunInv(b, steps[..|steps| - 1]);
      NextInv(Run(b, steps[..|steps| - 1]), steps[|steps| - 1]);
    }
  }

  // ---------------------------------------------------------------- whole runs

  lemma {:induction false} Reached(config: Option<RestartSpec.Config>, service: Option<RestartSpec.Config>,
                                   steps: seq<Step>)
      returns (lease: seq<LockSpec.Step>, files: seq<RestartSpec.Step>)
    ensures Inv(Run(Start(config, service), steps))
    ensures Run(Start(config, service), steps).lease == LockSpec.Run(LockSpec.EMPTY, lease)
    ensures Run(Start(config, service), steps).files == RestartSpec.Run(RestartSpec.Start(config, service), files)
    ensures LockSpec.Inv(Run(Start(config, service), steps).lease)
  {
    hide Run, LockSpec.Run, RestartSpec.Run;
    RunInv(Start(config, service), steps);
    lease, files := Projects(Start(config, service), steps);
    LockSpec.RunInv(LockSpec.EMPTY, lease);
  }

  function NonceBehind(b: Both, i: nat): nat
    requires i in b.backing && b.backing[i] < |b.lease.passes|
  {
    b.lease.passes[b.backing[i]].nonce
  }

  /** Over every run: whoever acts on a request does so after a check that its own process
      passed on a lock that this process created, and each time after another check. */
  lemma {:induction false} ActsUnderItsLease(
      config: Option<RestartSpec.Config>, service: Option<RestartSpec.Config>, steps: seq<Step>, i: nat)
    requires ActedIn(Run(Start(config, service), steps), i)
    ensures var b := Run(Start(config, service), steps);
            var f := b.files.log[i].f;
            && i in b.backing && Of(b, f, b.backing[i]) && LockSpec.Created(b.lease, b.pids[f], NonceBehind(b, i))
            && (forall j :: Twice(b, i, j) ==> j in b.backing && b.backing[i] < b.backing[j])
  {
    hide Run, LockSpec.Run, RestartSpec.Run;
    var _, _ := Reached(config, service, steps);
    var b := Run(Start(config, service), steps);
    assert Behind(b, i);
    forall j | Twice(b, i, j) ensures j in b.backing { assert Behind(b, j); }
  }

  /** Two followers that act under the same lock belong to one process. */
  lemma {:induction false} OneLockOneProcess(
      config: Option<RestartSpec.Config>, service: Option<RestartSpec.Config>, steps: seq<Step>, i: nat, j: nat)
    requires var b := Run(Start(config, service), steps);
             && ActedIn(b, i) && ActedIn(b, j)
             && i in b.backing && j in b.backing && b.backing[i] < |b.lease.passes| && b.backing[j] < |b.lease.passes|
             && NonceBehind(b, i) == NonceBehind(b, j)
    ensures var b := Run(Start(config, service), steps);
            && b.files.log[i].f < |b.pids| && b.files.log[j].f < |b.pids|
            && b.pids[b.files.log[i].f] == b.pids[b.files.log[j].f]
  {
    hide Run;
    ActsUnderItsLease(config, service, steps, i);
    ActsUnderItsLease(config, service, steps, j);
  }

  /** The lease is handed over for good: after a check that passed on another lock nobody acts
      with a later check on the former one. */
  lemma {:induction false} HandedOver(
      config: Option<RestartSpec.Config>, service: Option<RestartSpec.Config>, steps: seq<Step>, i: nat, p: nat, k: nat)
    requires var b := Run(Start(config, service), steps);
             && ActedIn(b, i) && ActedIn(b, k) && i in b.backing && k in b.backing
             && b.backing[i] < p < b.backing[k] < |b.lease.passes| && b.lease.passes[p].nonce != NonceBehind(b, i)
    ensures var b := Run(Start(config, service), steps); NonceBehind(b, k) != NonceBehind(b, i)
  {
    hide Run, LockSpec.Run, RestartSpec.Run;
    var lease, _ := Reached(config, service, steps);
    var b := Run(Start(config, service), steps);
    LockSpec.ReplacedNeverPasses(lease, b.backing[i], p, b.backing[k]);
  }

  lemma {:induction false} RunTwice(b: Both, steps: seq<Step>, more: seq<Step>)
    ensures Run(Run(b, steps), more) == Run(b, steps + more)
  {
    hide Next;
    if more == [] {
      assert steps + more == steps;
    } else {
      var n := |more| - 1;
      RunTwice(b, steps, more[..n]);
      assert (steps + more)[..|steps + more| - 1] == steps + more[..n];
    }
  }

  /** At some moment since, the lock was no longer at the path. */
  ghost predicate LeftPath(b: Both, since: seq<Step>, nonce: nat) {
    exists k :: 0 <= k <= |since| && LockSpec.Gone(Run(b, since[..k]).lease, nonce)
  }

  /** But a check is no lasting protection: a follower about to act with a check that it has
      passed still holds that lock exactly if the lock did not leave the path since.
      `before` is what happened before the check, `since` what happened after it. */
  lemma {:induction false} StillHeldExactly(
      config: Option<RestartSpec.Config>, service: Option<RestartSpec.Config>, before: seq<Step>, f: nat,
      since: seq<Step>)
    requires var b := Run(Start(config, service), before);
             var v := Run(Next(b, DoLookLock(f)), since);
             && |Next(b, DoLookLock(f)).lease.passes| > |b.lease.passes|
             && f in v.grants && v.grants[f] == |b.lease.passes|
    ensures var u := Next(Run(Start(config, service), before), DoLookLock(f));
            var v := Run(u, since);
            && v.grants[f] < |v.lease.passes|
            && var nonce := v.lease.passes[v.grants[f]].nonce;
               LockSpec.Contains(v.lease, nonce) <==> !LeftPath(u, since, nonce)
  {
    hide Run, LockSpec.Run, RestartSpec.Run, Next, LockSpec.Gone, LockSpec.Contains;
    var _, _ := Reached(config, service, before);
    var b := Run(Start(config, service), before);
    var u := Next(b, DoLookLock(f));
    PassContains(b, f);
    var nonce := u.lease.passes[|b.lease.passes|].nonce;
    var lease, _ := Projects(u, since);
    LockSpec.HeldOrGone(u.lease, lease, nonce);
    assert since[..|since|] == since;
    if k :| 0 <= k <= |since| && LockSpec.Gone(Run(u, since[..k]).lease, nonce) { GoneLater(u, since, k, nonce); }
  }

  lemma {:induction false} GoneLater(u: Both, since: seq<Step>, k: nat, nonce: nat)
    requires LockSpec.Inv(u.lease) && k <= |since| && LockSpec.Gone(Run(u, since[..k]).lease, nonce)
    ensures LockSpec.Gone(Run(u, since).lease, nonce)
  {
    hide Run, LockSpec.Run, RestartSpec.Run, LockSpec.Gone, LockSpec.Inv;
    var first, _ := Projects(u, since[..k]);
    LockSpec.RunInv(u.lease, first);
    var rest, _ := Projects(Run(u, since[..k]), since[k..]);
    LockSpec.GoneStaysGone(Run(u, since[..k]).lease, rest, nonce);
    RunTwice(u, since[..k], since[k..]);
    assert since[..k] + since[k..] == since;
  }

  /** A check that passes leaves the lease as it is but for its passes. */
  lemma {:induction false} PassContains(b: Both, f: nat)
    requires LockSpec.Inv(b.lease) && |Next(b, DoLookLock(f)).lease.passes| > |b.lease.passes|
    ensures var u := Next(b, DoLookLock(f)).lease;
            LockSpec.Inv(u) && LockSpec.Contains(u, u.passes[|b.lease.passes|].nonce)
  {
    hide LockSpec.Next, LockSpec.Inv;
    var ops := OnLease(b, DoLookLock(f));
    assert ops == [LockSpec.DoReadLock(b.pids[f])] && ops[..0] == [] && LockSpec.Run(b.lease, []) == b.lease;
    assert Next(b, DoLookLock(f)).lease == LockSpec.Next(b.lease, ops[0]);
    LockSpec.NextPasses(b.lease, ops[0]);
    LockSpec.NextInv(b.lease, ops[0]);
  }

  // ---------------------------------------------------------------- that it happens

  ghost predicate Reachable(b: Both) { exists steps :: Run(Start(None, None), steps) == b }

  /** The next world, with the one operation on the lease or on the files spelled out. */
  lemma {:induction false} Then(b: Both, s: Step) returns (v: Both)
    requires Reachable(b)
    ensures v == Next(b, s) && Reachable(v)
    ensures v.lease == if OnLease(b, s) == [] then b.lease else LockSpec.Next(b.lease, OnLease(b, s)[0])
    ensures v.files == if OnFiles(b, s) == [] then b.files else RestartSpec.Next(b.files, OnFiles(b, s)[0])
  {
    hide LockSpec.Next, RestartSpec.Next;
    var steps :| Run(Start(None, None), steps) == b;
    v := Next(b, s);
    FilesOnce(b, s);
    LeaseOnce(b, s);
    assert (steps + [s])[..|steps|] == steps;
    assert Run(Start(None, None), steps + [s]) == v;
  }

  const WANTED := RestartSpec.Config(0, 0)
  const REQUEST := RestartSpec.Request(1, WANTED, false)

  /** One operation on the lease. */
  lemma {:induction false} Operates(b: Both, op: LockSpec.Step) returns (v: Both)
    requires Reachable(b)
    ensures Reachable(v) && v == b.(lease := LockSpec.Next(b.lease, op))
  {
    hide Reachable, LockSpec.Next;
    v := Then(b, DoLease(op));
    FilesOnce(b, DoLease(op));
  }

  /** One operation of the session that was begun last, which comes to this stage. */
  lemma {:induction false} Moves(b: Both, all: seq<LockSpec.Session>, pid: nat, was: LockSpec.Stage) returns (v: Both)
    requires Reachable(b) && b.lease.sessions == all + [LockSpec.Session(pid, was)]
    ensures var n := |all|;
            && Reachable(v) && v == b.(lease := v.lease)
            && v.lease == LockSpec.FilesAfter(b.lease, n, LockSpec.FINE).(
                 sessions := all + [LockSpec.Session(pid, LockSpec.StageAfter(b.lease, n, LockSpec.FINE))])
  {
    hide Reachable, LockSpec.FilesAfter, LockSpec.StageAfter;
    v := Operates(b, LockSpec.DoSession(|all|, LockSpec.FINE));
  }

  /** An acquisition, one operation after the other; a lock in the way is found stale. */
  lemma {:induction false} Acquires(b: Both, pid: nat) returns (v: Both)
    requires Reachable(b)
    ensures Reachable(v)
    ensures v == b.(lease := b.lease.(lock := Some(LockSpec.Lock(|b.lease.sessions|, true)),
                                      presence := Some(LockSpec.Presence(pid, |b.lease.sessions|)),
                                      sessions := b.lease.sessions + [LockSpec.Session(pid, LockSpec.Active)]))
  {
    hide Reachable;
    var all := b.lease.sessions;
    v := Operates(b, LockSpec.DoBegin(pid));
    if b.lease.lock.Some? {
      v := Moves(v, all, pid, LockSpec.Trying(0));
      v := Moves(v, all, pid, LockSpec.Blocked(0));
      v := Moves(v, all, pid, LockSpec.Reclaiming(0, b.lease.lock.value.nonce));
      v := Moves(v, all, pid, LockSpec.Trying(1));
    } else {
      v := Moves(v, all, pid, LockSpec.Trying(0));
    }
    v := Moves(v, all, pid, LockSpec.Opened);
    v := Moves(v, all, pid, LockSpec.Held);
  }

  /** A new follower of a process that holds the lease passes its check and takes up the request. */
  lemma {:induction false} TakesUp(b: Both, pid: nat, nonce: nat, req: RestartSpec.Request) returns (v: Both)
    requires Reachable(b) && |b.pids| == |b.files.tasks| && |b.pids| !in b.permits && pid !in b.lease.reading
    requires b.lease.lock == Some(LockSpec.Lock(nonce, true)) && b.lease.presence == Some(LockSpec.Presence(pid, nonce))
    requires b.files.request == Some(req)
    ensures Reachable(v)
    ensures v == b.(lease := b.lease.(passes := b.lease.passes + [LockSpec.Pass(pid, nonce)]),
                    files := b.files.(tasks := b.files.tasks + [RestartSpec.HasRequest(req)]),
                    pids := b.pids + [pid], grants := b.grants[|b.pids| := |b.lease.passes|])
  {
    hide Reachable;
    var f := |b.pids|;
    v := Then(b, DoAttach(pid));
    assert v == b.(pids := b.pids + [pid], files := b.files.(tasks := b.files.tasks + [RestartSpec.Idle]));
    v := Then(v, DoLookPresence(f));
    v := Then(v, DoLookLock(f));
    assert v.lease == b.lease.(passes := b.lease.passes + [LockSpec.Pass(pid, nonce)]);
    assert v.permits == b.permits[f := |b.lease.passes|];
    v := Then(v, DoTake(f, true));
    assert v.permits == b.permits;
    assert v.files.tasks == b.files.tasks + [RestartSpec.HasRequest(req)];
  }

  /** A follower that has taken up a request acts on it, as no result answers it. */
  lemma {:induction false} NowActs(b: Both, f: nat) returns (v: Both)
    requires Reachable(b) && f < |b.files.tasks| && b.files.tasks[f].HasRequest? && f in b.grants
             && b.files.result.None?
    ensures var req := b.files.tasks[f].req;
            && Reachable(v)
            && v == b.(backing := b.backing[|b.files.log| := b.grants[f]],
                       files := b.files.(tasks := b.files.tasks[f := RestartSpec.Loading(req, |b.files.log|)],
                                         log := b.files.log + [RestartSpec.Acted(f, req.id, true)]))
  {
    hide Reachable;
    v := Then(b, DoFiles(RestartSpec.DoTask(f, RestartSpec.Answer(true, true, false, 0))));
  }

  /** A follower passes its check, loses the lease to another process, and acts after that
      one: two processes act on one request, the later one with the earlier check, on a
      lock that is gone. */
  lemma {:induction false} LateActor() returns (b: Both)
    ensures Reachable(b) && b.pids == [1, 2] && b.lease.passes == [LockSpec.Pass(1, 0), LockSpec.Pass(2, 1)]
    ensures b.files.log == [RestartSpec.Acted(1, 1, true), RestartSpec.Acted(0, 1, true)]
    ensures b.backing == map[0 := 1, 1 := 0] && LockSpec.Gone(b.lease, 0)
  {
    hide Reachable;
    StartReachable();
    b := Acquires(Start(None, None), 1);
    b := Then(b, DoFiles(RestartSpec.DoRequest(WANTED, false)));
    b := TakesUp(b, 1, 0, REQUEST);
    b := Acquires(b, 2);
    b := TakesUp(b, 2, 1, REQUEST);
    b := NowActs(b, 1);
    b := NowActs(b, 0);
  }

  lemma {:induction false} StartReachable()
    ensures Reachable(Start(None, None))
  {
    assert Run(Start(None, None), []) == Start(None, None);
  }
}
