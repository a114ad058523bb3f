/** When a command or a check of the restart protocol comes to which point, and what it then
    has read, decided and written. */
module RestartOutcome {
  import opened Wrappers
  import opened RestartSpec

  /** The result file answers this request. */
  predicate Answers(w: World, req: Request) { w.result.Some? && w.result.value.id == req.id }

  /** The service runs what was wanted. */
  predicate RunsWanted(w: World, req: Request) { w.service.Some? && w.service.value.service == req.wanted.service }

  /** It is found to. */
  predicate FoundRunning(w: World, t: Task, a: Answer) { (t.Checking? || t.Verifying?) && a.ok && RunsWanted(w, t.req) }

  /** Where a command comes to, by where it stood. */
  ghost predicate Comes(w: World, t: Task, u: Task, a: Answer) {
    && (u.Idle? <==> (t.Idle? && a.owned && !(a.ok && w.request.Some?)) || (t.HasRequest? && a.ok && Answers(w, t.req))
                     || (t.Answering? && a.ok && !t.fatal))
    && (u.HasRequest? <==> t.Idle? && a.owned && a.ok && w.request.Some?)
    && (u.Loading? <==> t.HasRequest? && !(a.ok && Answers(w, t.req)))
    && (u.Resolving? <==> t.Loading? && a.ok && w.config == Some(t.req.wanted))
    && (u.Checking? <==> t.Resolving? && a.ok && !t.req.force)
    && (u.Restarting? <==> (t.Resolving? && a.ok && t.req.force) || (t.Checking? && !FoundRunning(w, t, a)))
    && (u.Awaiting? <==> t.Restarting? && a.ok)
    && (u.Verifying? <==> t.Awaiting? && a.ok)
    && (u.Answering? <==> (t.Loading? && !(a.ok && w.config == Some(t.req.wanted))) || (t.Resolving? && !a.ok)
                          || FoundRunning(w, t, a) || ((t.Restarting? || t.Awaiting?) && !a.ok) || t.Verifying?)
    && (u.Ended? <==> t.Ended? || (t.Idle? && !a.owned) || (t.Answering? && !(a.ok && !t.fatal)))
  }

  predicate Busy(t: Task) { !t.Idle? && !t.Ended? && !t.HasRequest? }
  predicate KnowsHost(t: Task) { t.Checking? || t.Restarting? || t.Awaiting? || t.Verifying? }

  /** With what in its hands. */
  ghost predicate Carries(w: World, t: Task, u: Task, a: Answer) {
    && (u.HasRequest? ==> Some(u.req) == w.request)
    && (Busy(u) ==> (t.HasRequest? || Busy(t)) && u.req == t.req && u.since == (if Busy(t) then t.since else |w.log|))
    && (KnowsHost(u) ==> u.host == if KnowsHost(t) then t.host else a.host)
  }

  /** An answer is a success exactly if the service was found to run what was wanted; the command goes on after one that
      failed for the time being only. */
  ghost predicate Decides(w: World, t: Task, u: Task, a: Answer) {
    u.Answering? ==>
      && u.result.id == u.req.id && (u.result.success <==> FoundRunning(w, t, a))
      && u.result.fingerprint
         == (if FoundRunning(w, t, a) then Some(Fingerprint(u.req.wanted.service, t.host)) else None)
      && (FoundRunning(w, t, a) ==> u.seen == |w.log|)
      && (u.fatal <==> (t.Loading? && (!a.ok || w.config.None?)) || t.Restarting? || t.Awaiting?
                       || (t.Verifying? && !FoundRunning(w, t, a)))
  }

  /** What it leaves in the files, the service and the log. */
  ghost predicate Leaves(w: World, t: Task, u: Task, a: Answer, f: nat, v: World) {
    var writes := t.Answering? && (a.ok || a.effect);
    && v.config == w.config && v.request == w.request && v.requests == w.requests && v.checks == w.checks
    && v.result == (if writes then Some(t.result) else w.result)
    && v.service == (if t.Restarting? && a.ok then Some(t.req.wanted) else w.service)
    && v.log == w.log + (if u.Loading? then [Acted(f, u.req.id, a.ok)]
                         else if FoundRunning(w, t, a) then [Matched(f, t.req.id, t.req.wanted, w.service.value)]
                         else if writes then [Wrote(f, t.result, t.since, t.seen)] else [])
  }

  /** Every operation of a command, in every state. */
  lemma {:induction false} CommandExactly(w: World, f: nat, a: Answer)
    requires f < |w.tasks|
    ensures var v := Advance(w, f, a); var t, u := w.tasks[f], v.tasks[f];
            && |v.tasks| == |w.tasks| && (forall g :: 0 <= g < |w.tasks| && g != f ==> v.tasks[g] == w.tasks[g])
            && Comes(w, t, u, a) && Carries(w, t, u, a) && Decides(w, t, u, a) && Leaves(w, t, u, a, f, v)
  {
    assert w.log + [] == w.log;
  }

  /** Every read of a check: it goes on with the newest request, then with a success for it, and says "applied" exactly
      if that success is for the service part of the configuration that it reads last. */
  lemma {:induction false} CheckExactly(w: World, c: Check, a: Answer)
    ensures var d := Look(w, c, a);
            && (d.HasAsked? <==> c.Asking? && a.ok && w.request.Some?)
            && (d.HasAsked? ==> Some(d.req) == w.request && d.asked == |w.requests|)
            && (d.HasResult? <==> c.HasAsked? && a.ok && Answers(w, c.req) && w.result.value.success)
            && (d.HasResult? ==> d.req == c.req && d.asked == c.asked && Some(d.result) == w.result)
            && (d == Answered(true) <==>
                  c == Answered(true)
                  || (c.HasResult? && a.ok && w.config.Some?
                      && c.result.fingerprint == Some(Fingerprint(w.config.value.service, a.host))))
            && !d.Asking?
  {
  }

  /** The other steps touch one thing each. */
  lemma OthersExactly(w: World, s: Step)
    ensures s.DoConfigure? ==> Next(w, s) == w.(config := s.config)
    ensures s.DoService? ==> Next(w, s) == w.(service := s.service)
    ensures s.DoAttach? ==> Next(w, s) == w.(tasks := w.tasks + [Idle])
    ensures s.DoOpen? ==> Next(w, s) == w.(checks := w.checks + [Asking])
    ensures s.DoRequest? ==>
        var req := Request(|w.requests| + 1, s.wanted, s.force);
        Next(w, s) == w.(request := Some(req), requests := w.requests + [req])
  {
  }
}
