/** getApplicationMemoryUsage and getAllMemoryUsage: the calls that hand out a memory report. */
module MemoryCalls {
  import opened Wrappers
  import opened ProcessTree
  import opened ProcInfo
  import opened Groups

  datatype AppMemory = AppMemory(appPid: nat, appName: string, memoryMB: nat)

  /** What should be told about the process at row r: its own pid, its name, and the memory of its group if it leads
      one. */
  function Told(h: Host, r: nat): AppMemory
    requires r < |h.procs|
  {
    AppMemory(h.procs[r].pid, Names(h)[r], FigureOf(h, Memory, r))
  }

  /** Everything that should be told, in report order. */
  function AllTold(h: Host): (told: seq<AppMemory>)
    ensures |told| == |ReportRows(h)|
    ensures forall k :: 0 <= k < |told| ==> told[k] == Told(h, ReportRows(h)[k])
  {
    seq(|ReportRows(h)|, k requires 0 <= k < |ReportRows(h)| => Told(h, ReportRows(h)[k]))
  }

  /** The three vectors of a memory report, entry by entry. */
  ghost predicate Holds(r: Report, told: seq<AppMemory>) {
    && |r.pids| == |r.cmds| == |r.mems| == |told|
    && forall k :: 0 <= k < |told| ==> AppMemory(r.pids[k], r.cmds[k], r.mems[k]) == told[k]
  }

  /** A memory report holds, entry by entry, the pid, the name and the figure of the same process, and no pid twice. */
  lemma ReportHoldsTold(h: Host, r: Report)
    requires Listing(h) && Describes(HostPlan(h).src, true, false, ReportRows(h), r)
    ensures Holds(r, AllTold(h)) && Distinct(r.pids)
  {
    ReportedOnce(h, true, false, r);
    forall k | 0 <= k < |r.pids| ensures AppMemory(r.pids[k], r.cmds[k], r.mems[k]) == Told(h, ReportRows(h)[k]) {
      assert ReportRows(h)[k] in ReportRows(h);
      RowOrNothing(h, Memory, ReportRows(h)[k]);
    }
  }

  method ListReport(r: Report, ghost told: seq<AppMemory>) returns (list: seq<AppMemory>)
    requires Holds(r, told)
    ensures list == told
  {
    list := [];
    for n := 0 to |r.pids|
      invariant list == told[..n]
    {
      list := list + [AppMemory(r.pids[n], r.cmds[n], r.mems[n])];
    }
  }

  method SearchReport(r: Report, pid: nat, ghost told: seq<AppMemory>) returns (answer: Option<AppMemory>)
    requires Holds(r, told)
    ensures answer == None <==> forall k :: 0 <= k < |told| ==> told[k].appPid != pid
    ensures answer.Some? ==> answer.value in told && answer.value.appPid == pid
  {
    answer := None;
    for n := 0 to |r.pids|
      invariant forall k :: 0 <= k < n ==> told[k].appPid != pid
    {
      if r.pids[n] == pid {
        assert told[n].appPid == pid;
        return Some(AppMemory(pid, r.cmds[n], r.mems[n]));
      }
    }
  }

  /** Each reported process once, each with its own name and figure. */
  method GetAllMemoryUsage(h: Host) returns (list: seq<AppMemory>)
    requires Listing(h)
    ensures list == AllTold(h)
    ensures forall j, k :: 0 <= j < k < |list| ==> list[j].appPid != list[k].appPid
  {
    var r := GetProcInfo(h, true, false);
    ReportHoldsTold(h, r);
    list := ListReport(r, AllTold(h));
    hide AllTold, Describes, ReportRows;
    assert forall k :: 0 <= k < |list| ==> list[k].appPid == r.pids[k];
  }

  /** The call answers exactly for the processes that are reported, with what is told about that process. */
  method GetApplicationMemoryUsage(h: Host, pid: nat) returns (answer: Option<AppMemory>)
    requires Listing(h)
    ensures answer == None <==> pid == 0 || forall k :: 0 <= k < |AllTold(h)| ==> AllTold(h)[k].appPid != pid
    ensures answer.Some? ==> answer.value in AllTold(h) && answer.value.appPid == pid
  {
    answer := None;
    if pid > 0 {
      var r := GetProcInfo(h, true, false);
      ReportHoldsTold(h, r);
      answer := SearchReport(r, pid, AllTold(h));
    }
  }
}
