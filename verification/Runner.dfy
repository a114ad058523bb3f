/** The loop of an attached command as it is written, over the shared files, with
    everything that other processes do between its operations.  Each method is
    proved to be part of a run of RestartSpec. */
module AttachedRunner {
  import opened Wrappers
  import opened RestartSpec

  lemma {:induction false} Longer(first: World, steps: seq<Step>, s: Step)
    ensures Run(first, steps + [s]) == Next(Run(first, steps), s)
  {
    assert (steps + [s])[..|steps|] == steps;
  }

  lemma NotMine(w: World, s: Step, f: nat)
    requires f < |w.tasks| && !(s.DoTask? && s.f == f)
    ensures f < |Next(w, s).tasks| && Next(w, s).tasks[f] == w.tasks[f] && w.log <= Next(w, s).log
  {
  }

  class SharedFiles {
    const others: nat -> seq<Step>
    const answers: nat -> Answer
    ghost const first: World
    var config: Option<Config>
    var request: Option<Request>
    var result: Option<Result>
    var service: Option<Config>
    var requests: seq<Request>
    var tasks: seq<Task>
    var checks: seq<Check>
    var log: seq<Event>
    var time: nat
    ghost var history: seq<Step>

    function Value(): World
      reads this
    {
      World(config, request, result, service, requests, tasks, checks, log)
    }

    ghost predicate Valid()
      reads this
    {
      Value() == Run(first, history)
    }

    constructor (o: nat -> seq<Step>, a: nat -> Answer, c: Option<Config>, s: Option<Config>)
      ensures Valid() && first == Start(c, s) && others == o && answers == a
    {
      others, answers, first := o, a, Start(c, s);
      config, request, result, service := c, None, None, s;
      requests, tasks, checks, log := [], [], [], [];
      time, history := 0, [];
    }

    method Apply(s: Step)
      requires Valid()
      modifies this
      ensures Valid() && Value() == Next(old(Value()), s) && time == old(time) && old(history) <= history
    {
      Longer(first, history, s);
      var w := Next(Value(), s);
      config, request, result, service := w.config, w.request, w.result, w.service;
      requests, tasks, checks, log := w.requests, w.tasks, w.checks, w.log;
      history := history + [s];
    }

    /** Everything that happens before the next operation of this command. */
    method Others(f: nat) returns (a: Answer)
      requires Valid() && f < |tasks|
      modifies this
      ensures Valid() && old(history) <= history && f < |tasks| && tasks[f] == old(tasks[f]) && old(log) <= log
      ensures a == answers(old(time))
    {
      hide Next, Run;
      var steps := others(time);
      for k := 0 to |steps|
        invariant Valid() && old(history) <= history && f < |tasks| && tasks[f] == old(tasks[f]) && old(log) <= log
        invariant time == old(time)
      {
        if !(steps[k].DoTask? && steps[k].f == f) {
          NotMine(Value(), steps[k], f);
          Apply(steps[k]);
        }
      }
      a := answers(time);
      time := time + 1;
    }

    /** The state after one own operation. */
    twostate predicate Did(f: nat, t: Task)
      requires old(f < |tasks|)
      reads this
    {
      Valid() && old(history) <= history && |tasks| == old(|tasks|) && tasks[f] == t && old(log) <= log
    }

    method Attach() returns (f: nat)
      requires Valid()
      modifies this`tasks, this`history
      ensures Valid() && f == old(|tasks|) && tasks == old(tasks) + [Idle] && old(history) <= history
    {
      Longer(first, history, DoAttach);
      f := |tasks|;
      tasks := tasks + [Idle];
      history := history + [DoAttach];
    }

    /** The lease first, then the request file. */
    method ReadRequest(f: nat, a: Answer)
      requires Valid() && f < |tasks| && tasks[f].Idle?
      modifies this`tasks, this`history
      ensures Did(f, if !a.owned then Ended else if a.ok && request.Some? then HasRequest(request.value) else Idle)
    {
      Longer(first, history, DoTask(f, a));
      if !a.owned { tasks := tasks[f := Ended]; }
      else if a.ok && request.Some? { tasks := tasks[f := HasRequest(request.value)]; }
      history := history + [DoTask(f, a)];
    }

    /** A request that the result file already answers is left alone. */
    method ReadOldResult(f: nat, a: Answer) returns (act: bool)
      requires Valid() && f < |tasks| && tasks[f].HasRequest?
      modifies this`tasks, this`log, this`history
      ensures act <==> !(a.ok && result.Some? && result.value.id == old(tasks[f]).req.id)
      ensures Did(f, if act then Loading(old(tasks[f]).req, old(|log|)) else Idle)
    {
      Longer(first, history, DoTask(f, a));
      var req := tasks[f].req;
      act := !(a.ok && result.Some? && result.value.id == req.id);
      if act {
        tasks := tasks[f := Loading(req, |log|)];
        log := log + [Acted(f, req.id, a.ok)];
      } else {
        tasks := tasks[f := Idle];
      }
      history := history + [DoTask(f, a)];
    }

    method LoadSnapshot(f: nat, a: Answer) returns (ok: bool)
      requires Valid() && f < |tasks| && tasks[f].Loading?
      modifies this`tasks, this`history
      ensures var req, since := old(tasks[f]).req, old(tasks[f]).since;
              && (ok <==> a.ok && config.Some? && config.value == req.wanted)
              && Did(f, if ok then Resolving(req, since)
                     else Answering(req, since, Failure(req.id), 0, !a.ok || config.None?))
    {
      Longer(first, history, DoTask(f, a));
      var req, since := tasks[f].req, tasks[f].since;
      ok := false;
      if !a.ok || config.None? { tasks := tasks[f := Answering(req, since, Failure(req.id), 0, true)]; }
      else if config.value != req.wanted { tasks := tasks[f := Answering(req, since, Failure(req.id), 0, false)]; }
      else {
        ok := true;
        tasks := tasks[f := Resolving(req, since)];
      }
      history := history + [DoTask(f, a)];
    }

    method ResolveHost(f: nat, a: Answer)
      requires Valid() && f < |tasks| && tasks[f].Resolving?
      modifies this`tasks, this`history
      ensures var req, since := old(tasks[f]).req, old(tasks[f]).since;
              Did(f, if !a.ok then Answering(req, since, Failure(req.id), 0, false)
                     else if req.force then Restarting(req, since, a.host) else Checking(req, since, a.host))
    {
      Longer(first, history, DoTask(f, a));
      var req, since := tasks[f].req, tasks[f].since;
      if !a.ok { tasks := tasks[f := Answering(req, since, Failure(req.id), 0, false)]; }
      else if req.force { tasks := tasks[f := Restarting(req, since, a.host)]; }
      else { tasks := tasks[f := Checking(req, since, a.host)]; }
      history := history + [DoTask(f, a)];
    }

    /** Before the restart a mismatch means "go on", after it "give up". */
    method AskForMatch(f: nat, a: Answer) returns (matched: bool)
      requires Valid() && f < |tasks| && (tasks[f].Checking? || tasks[f].Verifying?)
      modifies this`tasks, this`log, this`history
      ensures var t := old(tasks[f]);
              && (matched <==> a.ok && Matches(service, t.req.wanted))
              && Did(f, if matched then
                          Answering(t.req, t.since,
                                    Result(t.req.id, true, Some(Fingerprint(t.req.wanted.service, t.host))),
                                    old(|log|), false)
                        else if t.Checking? then Restarting(t.req, t.since, t.host)
                        else Answering(t.req, t.since, Failure(t.req.id), 0, true))
    {
      Longer(first, history, DoTask(f, a));
      var t := tasks[f];
      matched := a.ok && Matches(service, t.req.wanted);
      if matched {
        var success := Result(t.req.id, true, Some(Fingerprint(t.req.wanted.service, t.host)));
        tasks := tasks[f := Answering(t.req, t.since, success, |log|, false)];
        log := log + [Matched(f, t.req.id, t.req.wanted, service.value)];
      } else if t.Checking? {
        tasks := tasks[f := Restarting(t.req, t.since, t.host)];
      } else {
        tasks := tasks[f := Answering(t.req, t.since, Failure(t.req.id), 0, true)];
      }
      history := history + [DoTask(f, a)];
    }

    /** Restarts the service, or waits for its replacement. */
    method RestartOrAwait(f: nat, a: Answer) returns (ok: bool)
      requires Valid() && f < |tasks| && (tasks[f].Restarting? || tasks[f].Awaiting?)
      modifies this`tasks, this`service, this`history
      ensures var t := old(tasks[f]);
              && ok == a.ok
              && Did(f, if !ok then Answering(t.req, t.since, Failure(t.req.id), 0, true)
                        else if t.Restarting? then Awaiting(t.req, t.since, t.host)
                               else Verifying(t.req, t.since, t.host))
    {
      hide Run;
      Longer(first, history, DoTask(f, a));
      var t := tasks[f];
      ok := a.ok;
      if !ok { tasks := tasks[f := Answering(t.req, t.since, Failure(t.req.id), 0, true)]; }
      else if t.Restarting? {
        service := Some(t.req.wanted);
        tasks := tasks[f := Awaiting(t.req, t.since, t.host)];
      } else {
        tasks := tasks[f := Verifying(t.req, t.since, t.host)];
      }
      history := history + [DoTask(f, a)];
    }

    method WriteAnswer(f: nat, a: Answer) returns (ok: bool)
      requires Valid() && f < |tasks| && tasks[f].Answering?
      modifies this`tasks, this`result, this`log, this`history
      ensures var t := old(tasks[f]);
              && (ok <==> a.ok && !t.fatal) && Did(f, if ok then Idle else Ended)
              && (ok ==> result == Some(t.result) && log == old(log) + [Wrote(f, t.result, t.since, t.seen)])
    {
      Longer(first, history, DoTask(f, a));
      var t := tasks[f];
      if a.ok || a.effect {
        result := Some(t.result);
        log := log + [Wrote(f, t.result, t.since, t.seen)];
      }
      ok := a.ok && !t.fatal;
      tasks := tasks[f := if ok then Idle else Ended];
      history := history + [DoTask(f, a)];
    }

    /** Brings the service up to date; `ok` means that the command goes on. */
    method ApplyServiceRestartRequest(f: nat) returns (ok: bool)
      requires Valid() && f < |tasks| && tasks[f].Loading?
      modifies this
      ensures Valid() && old(history) <= history && f < |tasks| && tasks[f] == (if ok then Idle else Ended)
      ensures ok ==> result.Some? && result.value.id == old(tasks[f]).req.id
      ensures ok ==>
          log != [] && log[|log| - 1].Wrote? && log[|log| - 1].f == f && log[|log| - 1].result == result.value
    {
      hide Run, Did;
      var a := Others(f);
      var loaded := LoadAndResolve(f, a);
      if loaded { BringUp(f); }
      a := Others(f);
      ok := AnswerNow(f, a);
    }

    method AnswerNow(f: nat, a: Answer) returns (ok: bool)
      requires Valid() && f < |tasks| && tasks[f].Answering? && tasks[f].result.id == tasks[f].req.id
      modifies this
      ensures Valid() && old(history) <= history && f < |tasks| && tasks[f] == (if ok then Idle else Ended)
      ensures ok ==> result.Some? && result.value.id == old(tasks[f]).req.id
      ensures ok ==>
          log != [] && log[|log| - 1].Wrote? && log[|log| - 1].f == f && log[|log| - 1].result == result.value
    {
      ok := WriteAnswer(f, a);
    }

    /** The snapshot must be the requested one; says whether the service is to be looked at. */
    method LoadAndResolve(f: nat, a: Answer) returns (go: bool)
      requires Valid() && f < |tasks| && tasks[f].Loading?
      modifies this
      ensures Valid() && old(history) <= history && f < |tasks| && old(log) <= log
      ensures ReqOf(tasks[f]) == Some(old(tasks[f]).req)
      ensures if go then tasks[f].Checking? || tasks[f].Restarting?
              else tasks[f].Answering? && tasks[f].result.id == tasks[f].req.id
    {
      hide Run;
      var ok := LoadSnapshot(f, a);
      if !ok { return false; }
      var b := Others(f);
      ResolveHost(f, b);
      go := b.ok;
    }

    /** Looks, restarts, waits and looks again. */
    method BringUp(f: nat)
      requires Valid() && f < |tasks| && (tasks[f].Checking? || tasks[f].Restarting?)
      modifies this
      ensures Valid() && old(history) <= history && f < |tasks| && old(log) <= log
      ensures ReqOf(tasks[f]) == Some(old(tasks[f]).req)
      ensures tasks[f].Answering? && tasks[f].result.id == tasks[f].req.id
    {
      hide Run, Did;
      if tasks[f].Checking? {
        var a := Others(f);
        var matched := Look(f, a);
        if matched { return; }
      }
      RestartAndVerify(f);
    }

    method Look(f: nat, a: Answer) returns (matched: bool)
      requires Valid() && f < |tasks| && (tasks[f].Checking? || tasks[f].Verifying?)
      modifies this`tasks, this`log, this`history
      ensures Valid() && old(history) <= history && f < |tasks| && old(log) <= log
      ensures ReqOf(tasks[f]) == Some(old(tasks[f]).req)
      ensures !matched && old(tasks[f]).Checking? ==> tasks[f].Restarting?
      ensures matched || old(tasks[f]).Verifying? ==> tasks[f].Answering? && tasks[f].result.id == tasks[f].req.id
    {
      hide Run;
      matched := AskForMatch(f, a);
    }

    method GoOn(f: nat, a: Answer) returns (ok: bool)
      requires Valid() && f < |tasks| && (tasks[f].Restarting? || tasks[f].Awaiting?)
      modifies this`tasks, this`service, this`history
      ensures Valid() && old(history) <= history && f < |tasks| && old(log) <= log
      ensures ReqOf(tasks[f]) == Some(old(tasks[f]).req)
      ensures ok ==> if old(tasks[f]).Restarting? then tasks[f].Awaiting? else tasks[f].Verifying?
      ensures !ok ==> tasks[f].Answering? && tasks[f].result.id == tasks[f].req.id
    {
      hide Run;
      ok := RestartOrAwait(f, a);
    }

    method RestartAndVerify(f: nat)
      requires Valid() && f < |tasks| && tasks[f].Restarting?
      modifies this
      ensures Valid() && old(history) <= history && f < |tasks| && old(log) <= log
      ensures ReqOf(tasks[f]) == Some(old(tasks[f]).req)
      ensures tasks[f].Answering? && tasks[f].result.id == tasks[f].req.id
    {
      hide Run, Did;
      var a := Others(f);
      var ok := GoOn(f, a);
      if !ok { return; }
      a := Others(f);
      ok := GoOn(f, a);
      if !ok { return; }
      a := Others(f);
      var _ := Look(f, a);
    }

    /** One tick of the loop: nothing to do, or one request answered, or the end. */
    method Tick(f: nat)
      requires Valid() && f < |tasks| && tasks[f].Idle?
      modifies this
      ensures Valid() && old(history) <= history && f < |tasks| && (tasks[f].Idle? || tasks[f].Ended?)
    {
      hide Run;
      var a := Others(f);
      ReadRequest(f, a);
      if tasks[f].HasRequest? {
        var b := Others(f);
        var act := ReadOldResult(f, b);
        if act { var _ := ApplyServiceRestartRequest(f); }
      }
    }

    method FollowAttachedService(ticks: nat) returns (f: nat)
      requires Valid()
      modifies this
      ensures Valid() && old(history) <= history && f < |tasks| && (tasks[f].Idle? || tasks[f].Ended?)
    {
      hide Run;
      f := Attach();
      for k := 0 to ticks
        invariant Valid() && old(history) <= history && f < |tasks| && (tasks[f].Idle? || tasks[f].Ended?)
      {
        if tasks[f].Ended? { return; }
        Tick(f);
      }
    }
  }

  function ReqOf(t: Task): Option<Request> {
    if t.Idle? || t.Ended? then None else Some(t.req)
  }
}
