/** The edge object and its processes, with one method for each critical section. */
module CloudflaredTunnel {
  import opened Wrappers
  import opened TunnelSpec

  class TunnelObject {
    var started: bool
    var expectedStop: bool
    var exited: bool
    ghost var stopWanted: bool
    ghost var starter: Starter
    ghost var waiter: Waiter
    ghost var reports: nat

    ghost function Value(): Tunnel
      reads this
    {
      Tunnel(started, expectedStop, exited, stopWanted, starter, waiter, reports)
    }

    constructor ()
      ensures Value() == NEW_TUNNEL
    {
      started, expectedStop, exited := false, false, false;
      stopWanted, starter, waiter, reports := false, Waiting, Watching, 0;
    }
  }

  ghost function Values(all: seq<TunnelObject>): seq<Tunnel>
    reads all
  {
    seq(|all|, i requires 0 <= i < |all| reads all => all[i].Value())
  }

  class Cloudflared {
    var process: TunnelObject?
    var publicURL: string
    var failure: bool
    ghost var all: seq<TunnelObject>
    ghost var slot: Option<nat>

    ghost predicate Valid()
      reads this, all
    {
      && (forall i, j :: 0 <= i < j < |all| ==> all[i] != all[j])
      && (slot.None? <==> process == null)
      && (slot.Some? ==> slot.value < |all| && all[slot.value] == process)
    }

    ghost function Model(): Edge
      reads this, all
    {
      Edge(slot, publicURL, failure, Values(all))
    }

    constructor ()
      ensures Valid() && Model() == NEW_EDGE
    {
      process, publicURL, failure := null, "", false;
      all, slot := [], None;
    }

    /** The first critical section of Start, when the command could be started. */
    method LaunchSection() returns (t: TunnelObject?, url: string)
      requires Valid()
      modifies this
      ensures Valid() && Model() == Next(old(Model()), DoLaunch)
      ensures t == null <==> Running(old(Model()))
      ensures t == null ==> url == old(publicURL)
      ensures t != null ==> fresh(t) && process == t
    {
      if process != null && !process.exited { return null, publicURL; }
      t := new TunnelObject();
      process, publicURL, url := t, "", "";
      slot := Some(|all|);
      all := all + [t];
      assert Values(all) == old(Values(all)) + [t.Value()];
    }

    /** The section in which Start returns: with the URL, or because of the exit. */
    method PublishSection(ghost i: nat, t: TunnelObject, url: string) returns (ok: bool)
      requires Valid() && i < |all| && all[i] == t && t.starter.Waiting?
      modifies this`publicURL, t
      ensures Valid() && Model() == Next(old(Model()), DoPublish(i, url))
      ensures ok <==> t.starter == ReturnedURL(url)
    {
      ok := !t.exited;
      if ok {
        t.started := true;
        publicURL := url;
        t.starter := ReturnedURL(url);
      } else {
        t.starter := ReturnedError;
      }
      assert Values(all) == old(Values(all))[i := t.Value()];
    }

    /** The critical section of Stop; it hands out the process to terminate. */
    method StopSection() returns (t: TunnelObject?)
      requires Valid()
      modifies process
      ensures Valid() && Model() == Next(old(Model()), DoStop)
      ensures t == if Running(old(Model())) then process else null
    {
      if process == null || process.exited {
        assert Values(all) == old(Values(all));
        return null;
      }
      process.expectedStop := true;
      t := process;
      assert Values(all) == old(Values(all))[slot.value := process.Value()];
    }

    /** A Start whose context ended: it fails and stops the process in use. */
    method CancelStart(ghost i: nat, t: TunnelObject) returns (stopped: TunnelObject?)
      requires Valid() && i < |all| && all[i] == t && t.starter.Waiting?
      modifies process, t
      ensures Valid() && Model() == Next(old(Model()), DoCancelStart(i))
    {
      t.starter := ReturnedError;
      assert Values(all) == old(Values(all))[i := t.Value()];
      stopped := StopSection();
    }

    /** The exit of a process is recorded; says whether a report is due. */
    method ExitSection(ghost i: nat, t: TunnelObject) returns (report: bool)
      requires Valid() && i < |all| && all[i] == t && t.waiter.Watching?
      modifies this`process, this`publicURL, this`slot, t
      ensures Valid() && Model() == Next(old(Model()), DoExit(i))
      ensures report <==> t.waiter.MustReport?
    {
      t.exited := true;
      if process == t { process, slot, publicURL := null, None, ""; }
      report := t.started && !t.expectedStop;
      t.stopWanted, t.waiter := t.expectedStop, if report then MustReport else MayClose;
      assert Values(all) == old(Values(all))[i := t.Value()];
    }

    /** A full buffer keeps its failure. */
    method ReportFailure(ghost i: nat, t: TunnelObject)
      requires Valid() && i < |all| && all[i] == t && t.waiter.MustReport?
      modifies this`failure, t
      ensures Valid() && Model() == Next(old(Model()), DoReport(i))
    {
      if !failure { failure := true; }
      t.waiter, t.reports := MayClose, t.reports + 1;
      assert Values(all) == old(Values(all))[i := t.Value()];
    }

    method CloseDone(ghost i: nat, t: TunnelObject)
      requires Valid() && i < |all| && all[i] == t && t.waiter.MayClose?
      modifies t
      ensures Valid() && Model() == Next(old(Model()), DoClose(i))
    {
      t.waiter := Over;
      assert Values(all) == old(Values(all))[i := t.Value()];
    }

    method IsRunning() returns (r: bool)
      requires Valid()
      ensures r == Running(Model())
    {
      r := process != null && !process.exited;
    }
  }
}
