/** MemoryInfo::getProcInfo: attribution, grouping, apportioned memory and the parallel output vectors. */
module ProcInfo {
  import opened Wrappers
  import opened ProcessTree
  import opened Groups

  // ------------------------------------------------------- figures of one process

  /** Number of the first k processes that run cmd. */
  function CmdCount(h: Host, cmd: string, k: nat): (c: nat)
    requires k <= |h.procs|
    ensures (exists i :: 0 <= i < k && h.procs[i].cmd == cmd) ==> c > 0
  {
    if k == 0 then 0 else CmdCount(h, cmd, k - 1) + (if h.procs[k - 1].cmd == cmd then 1 else 0)
  }

  function SmapsOf(h: Host, pid: nat): Smaps {
    if pid in h.smaps then h.smaps[pid] else Smaps(0, 0)
  }

  /** The part of its shared memory that process i is charged for, in KB. */
  function SharedCharge(h: Host, i: nat): nat
    requires i < |h.procs|
  {
    SmapsOf(h, h.procs[i].pid).shared / CmdCount(h, h.procs[i].cmd, |h.procs|)
  }

  /** The memory charged for process i, in MB. */
  function MemUse(h: Host, i: nat): nat
    requires i < |h.procs|
  {
    (SmapsOf(h, h.procs[i].pid).pvt + SharedCharge(h, i)) / 1024
  }

  // ------------------------------------------------------- the report, by process position

  function Leaders(h: Host): (lead: seq<Option<nat>>)
    ensures |lead| == |h.procs| && forall i :: 0 <= i < |lead| ==> lead[i] == Leader(h, i)
  {
    seq(|h.procs|, i requires 0 <= i < |h.procs| => Leader(h, i))
  }

  /** Every leader leads itself, so the groups are disjoint and each leader is in its own group. */
  lemma LeadersSelfLed(h: Host)
    ensures SelfLed(Leaders(h))
  {
    var lead := Leaders(h);
    forall i | 0 <= i < |lead| && lead[i].Some?
      ensures lead[i].value < |lead| && lead[lead[i].value] == lead[i]
    {
      LeaderLeadsItself(h, i);
    }
  }

  function Listed(h: Host): bool {
    |h.registry| != 0
  }

  function ReportRows(h: Host): (rows: seq<nat>)
    ensures forall j :: 0 <= j < |rows| ==> rows[j] < |h.procs|
  {
    Rows(Leaders(h), Listed(h), |h.procs|)
  }

  function Pids(h: Host): seq<nat> {
    seq(|h.procs|, i requires 0 <= i < |h.procs| => h.procs[i].pid)
  }

  /** The command shown: the callsign of a leader when there is no registry. */
  function Names(h: Host): seq<string> {
    var lead := Leaders(h);
    seq(|h.procs|, i requires 0 <= i < |h.procs| =>
      if !Listed(h) && IsLeader(lead, i) then CallSign(h, h.procs[i].pid) else h.procs[i].cmd)
  }

  function MemUses(h: Host): seq<nat> {
    seq(|h.procs|, i requires 0 <= i < |h.procs| => MemUse(h, i))
  }

  function CpuUses(h: Host): seq<nat> {
    seq(|h.procs|, i requires 0 <= i < |h.procs| => h.procs[i].cpuTicks)
  }

  function AllShown(h: Host, use: seq<nat>): (shown: seq<nat>)
    requires |use| == |h.procs|
    ensures |shown| == |h.procs|
  {
    var lead := Leaders(h);
    seq(|h.procs|, i requires 0 <= i < |h.procs| => Shown(lead, use, i))
  }

  // ------------------------------------------------------- the loops

  ghost predicate GroupsBuilt(lead: seq<Option<nat>>, k: nat, cmdMap: map<nat, seq<nat>>)
    requires k <= |lead|
  {
    forall l: nat :: (if l in cmdMap then cmdMap[l] else []) == Members(lead, l, k)
  }

  lemma GroupsBuiltStep(lead: seq<Option<nat>>, n: nat, cmdMap: map<nat, seq<nat>>)
    requires n < |lead| && GroupsBuilt(lead, n, cmdMap)
    ensures lead[n] == None ==> GroupsBuilt(lead, n + 1, cmdMap)
    ensures lead[n].Some? ==>
      var l := lead[n].value;
      GroupsBuilt(lead, n + 1, cmdMap[l := (if l in cmdMap then cmdMap[l] else []) + [n]])
  {
  }

  ghost predicate LeadersCached(h: Host, cmdMap: map<nat, seq<nat>>, cache: map<nat, string>) {
    forall l :: l in cmdMap ==>
      l < |h.procs| && cmdMap[l] != [] && (!Listed(h) ==> h.procs[l].pid in cache)
  }

  lemma LeadersCachedStep(h: Host, cmdMap: map<nat, seq<nat>>, cache: map<nat, string>, l: nat, group: seq<nat>,
                          cache': map<nat, string>)
    requires LeadersCached(h, cmdMap, cache) && cache.Keys <= cache'.Keys
    ensures LeadersCached(h, cmdMap, cache')
    ensures l < |h.procs| && group != [] && (!Listed(h) ==> h.procs[l].pid in cache') ==>
      LeadersCached(h, cmdMap[l := group], cache')
  {
  }

  /** What the attribution loop has established after n processes. */
  ghost predicate Attributed(h: Host, lead: seq<Option<nat>>, n: nat, pidMap: map<nat, nat>,
                             cmdMap: map<nat, seq<nat>>, cache: map<nat, string>)
    requires n <= |lead|
  {
    && PidMapBuilt(h, |h.procs|, pidMap) && CacheHonest(h, cache)
    && GroupsBuilt(lead, n, cmdMap) && LeadersCached(h, cmdMap, cache)
  }

  method AttributeOne(h: Host, n: nat, ghost lead: seq<Option<nat>>, pidMap0: map<nat, nat>,
                      cmdMap0: map<nat, seq<nat>>, cache0: map<nat, string>)
    returns (pidMap: map<nat, nat>, cmdMap: map<nat, seq<nat>>, cache: map<nat, string>)
    requires Listing(h) && n < |h.procs| == |lead| && lead[n] == Leader(h, n)
    requires Attributed(h, lead, n, pidMap0, cmdMap0, cache0)
    ensures Attributed(h, lead, n + 1, pidMap, cmdMap, cache)
  {
    var lastIdx: nat;
    lastIdx, pidMap, cache := Climb(h, n, lead[n], pidMap0, cache0);
    GroupsBuiltStep(lead, n, cmdMap0);
    var group := if lastIdx in cmdMap0 then cmdMap0[lastIdx] else [];
    LeadersCachedStep(h, cmdMap0, cache0, lastIdx, group + [n], cache);
    cmdMap := if lastIdx < |h.procs| then cmdMap0[lastIdx := group + [n]] else cmdMap0;
  }

  /** Every process goes to the group of its leader; the callsigns of the leaders are cached on the way. */
  method BuildGroups(h: Host, ghost lead: seq<Option<nat>>)
    returns (cmdMap: map<nat, seq<nat>>, cache: map<nat, string>)
    requires Listing(h) && |lead| == |h.procs|
    requires forall i {:trigger Leader(h, i)} :: 0 <= i < |lead| ==> lead[i] == Leader(h, i)
    ensures GroupsBuilt(lead, |lead|, cmdMap)
    ensures CacheHonest(h, cache) && LeadersCached(h, cmdMap, cache)
  {
    var pidMap := BuildPidMap(h);
    cmdMap, cache := map[], map[];
    for n := 0 to |h.procs|
      invariant Attributed(h, lead, n, pidMap, cmdMap, cache)
    {
      assert lead[n] == Leader(h, n);
      pidMap, cmdMap, cache := AttributeOne(h, n, lead, pidMap, cmdMap, cache);
    }
  }

  ghost predicate Counted(h: Host, cmdCount: map<string, nat>) {
    forall cmd {:trigger CmdCount(h, cmd, |h.procs|)} ::
      (if cmd in cmdCount then cmdCount[cmd] else 0) == CmdCount(h, cmd, |h.procs|)
  }

  method CountCommands(h: Host) returns (cmdCount: map<string, nat>)
    ensures Counted(h, cmdCount)
  {
    cmdCount := map[];
    for n := 0 to |h.procs|
      invariant forall cmd :: (if cmd in cmdCount then cmdCount[cmd] else 0) == CmdCount(h, cmd, n)
    {
      var cmd := h.procs[n].cmd;
      cmdCount := cmdCount[cmd := (if cmd in cmdCount then cmdCount[cmd] else 0) + 1];
    }
  }

  /** The report columns, one entry per process. */
  datatype Sources = Sources(pids: seq<nat>, names: seq<string>, mems: seq<nat>, cpus: seq<nat>)

  /** The columns of followers fs that a group loop has produced; the pid and command columns only if named. */
  ghost predicate Collected(src: Sources, vals: seq<nat>, named: bool, fs: seq<nat>,
                            pids: seq<nat>, cmds: seq<string>, col: seq<nat>)
  {
    && (forall j :: 0 <= j < |fs| ==> fs[j] < |src.pids| && fs[j] < |src.names| && fs[j] < |vals|)
    && pids == (if named then Column(src.pids, fs) else [])
    && cmds == (if named then Column(src.names, fs) else [])
    && col == Column(vals, fs)
  }

  lemma CollectedStep(src: Sources, vals: seq<nat>, named: bool, listed: bool, l: nat, ms: seq<nat>, n: nat,
                      pids: seq<nat>, cmds: seq<string>, col: seq<nat>)
    requires n < |ms| && ms[n] < |src.pids| && ms[n] < |src.names| && ms[n] < |vals|
    requires Collected(src, vals, named, Followers(listed, l, ms[..n]), pids, cmds, col)
    ensures var fs, m := Followers(listed, l, ms[..n + 1]), ms[n];
      if listed && m != l
      then Collected(src, vals, named, fs,
                     if named then pids + [src.pids[m]] else pids,
                     if named then cmds + [src.names[m]] else cmds, col + [vals[m]])
      else Collected(src, vals, named, fs, pids, cmds, col)
  {
    assert ms[..n + 1][..n] == ms[..n];
  }

  /** What the output loops are to report: who leads whom, the columns, and the processes' own figures. */
  datatype Plan = Plan(lead: seq<Option<nat>>, src: Sources, memUse: seq<nat>, cpuUse: seq<nat>)

  ghost predicate PlanFor(h: Host, p: Plan) {
    && |p.lead| == |p.src.pids| == |p.src.names| == |p.src.mems| == |p.src.cpus| == |h.procs|
    && |p.memUse| == |p.cpuUse| == |h.procs|
    && (forall i :: 0 <= i < |p.lead| ==> p.src.pids[i] == h.procs[i].pid && p.cpuUse[i] == h.procs[i].cpuTicks)
  }

  /** A process that is not a leader is shown under its own command, with its own figures. */
  ghost predicate FollowersShown(h: Host, p: Plan)
    requires PlanFor(h, p)
  {
    forall i :: 0 <= i < |p.lead| && !IsLeader(p.lead, i) ==>
      p.src.names[i] == h.procs[i].cmd && p.src.mems[i] == p.memUse[i] && p.src.cpus[i] == p.cpuUse[i]
  }

  /** A leader is shown with the totals of its group, and under its callsign when there is no registry. */
  ghost predicate LeaderShown(h: Host, p: Plan, l: nat)
    requires PlanFor(h, p) && l < |h.procs|
  {
    && p.src.names[l] == (if Listed(h) then h.procs[l].cmd else CallSign(h, h.procs[l].pid))
    && p.src.mems[l] == Total(p.memUse, Members(p.lead, l, |p.lead|))
    && p.src.cpus[l] == Total(p.cpuUse, Members(p.lead, l, |p.lead|))
  }

  /** The figure of one process: private memory plus its share of the shared memory, in MB.  The guard against a
      count of 0 never fires. */
  method MemoryOfProcess(h: Host, cmdCount: map<string, nat>, m: nat) returns (usage: nat)
    requires Counted(h, cmdCount) && m < |h.procs|
    ensures usage == MemUse(h, m)
  {
    var cmd := h.procs[m].cmd;
    var cnt := if cmd in cmdCount then cmdCount[cmd] else 0;
    assert cnt == CmdCount(h, cmd, |h.procs|) && cnt != 0;
    var smaps := SmapsOf(h, h.procs[m].pid);
    usage := (smaps.pvt + smaps.shared / cnt) / 1024;
  }

  ghost predicate OwnMemory(h: Host, use: seq<nat>) {
    |use| == |h.procs| && forall i {:trigger MemUse(h, i)} :: 0 <= i < |use| ==> use[i] == MemUse(h, i)
  }

  method MemoryOfMember(h: Host, cmdCount: map<string, nat>, m: nat, ghost use: seq<nat>) returns (usage: nat)
    requires Counted(h, cmdCount) && OwnMemory(h, use) && m < |h.procs|
    ensures usage == use[m]
  {
    usage := MemoryOfProcess(h, cmdCount, m);
  }

  /** The memory loop over one group: the followers' pids, commands and figures, and the group total. */
  method MemoryOfGroup(h: Host, cmdCount: map<string, nat>, l: nat, ms: seq<nat>, ghost p: Plan)
    returns (pids: seq<nat>, cmds: seq<string>, mems: seq<nat>, total: nat)
    requires PlanFor(h, p) && FollowersShown(h, p) && Counted(h, cmdCount) && OwnMemory(h, p.memUse)
    requires l < |h.procs| && ms == Members(p.lead, l, |p.lead|)
    ensures Collected(p.src, p.src.mems, true, Followers(Listed(h), l, ms), pids, cmds, mems)
    ensures total == Total(p.memUse, ms)
  {
    pids, cmds, mems, total := [], [], [], 0;
    hide Members, Counted, OwnMemory;
    for n := 0 to |ms|
      invariant Collected(p.src, p.src.mems, true, Followers(Listed(h), l, ms[..n]), pids, cmds, mems)
      invariant total == Total(p.memUse, ms[..n])
    {
      var m := ms[n];
      assert m in ms;
      var usage := MemoryOfMember(h, cmdCount, m, p.memUse);
      CollectedStep(p.src, p.src.mems, true, Listed(h), l, ms, n, pids, cmds, mems);
      TotalSnoc(p.memUse, ms[..n], m);
      TakeOneMore(ms, n);
      if |h.registry| != 0 && l != m {
        pids, cmds, mems := pids + [h.procs[m].pid], cmds + [h.procs[m].cmd], mems + [usage];
      }
      total := total + usage;
    }
    assert ms[..|ms|] == ms;
  }

  /** The CPU loop over one group; it also lists the followers when the memory loop did not run. */
  method CpuOfGroup(h: Host, calcMem: bool, l: nat, ms: seq<nat>, ghost p: Plan)
    returns (pids: seq<nat>, cmds: seq<string>, cpus: seq<nat>, total: nat)
    requires PlanFor(h, p) && FollowersShown(h, p)
    requires l < |h.procs| && ms == Members(p.lead, l, |p.lead|)
    ensures Collected(p.src, p.src.cpus, !calcMem, Followers(Listed(h), l, ms), pids, cmds, cpus)
    ensures total == Total(p.cpuUse, ms)
  {
    pids, cmds, cpus, total := [], [], [], 0;
    for n := 0 to |ms|
      invariant Collected(p.src, p.src.cpus, !calcMem, Followers(Listed(h), l, ms[..n]), pids, cmds, cpus)
      invariant total == Total(p.cpuUse, ms[..n])
    {
      var m := ms[n];
      assert m in ms;
      CollectedStep(p.src, p.src.cpus, !calcMem, Listed(h), l, ms, n, pids, cmds, cpus);
      TotalSnoc(p.cpuUse, ms[..n], m);
      TakeOneMore(ms, n);
      if |h.registry| != 0 && l != m {
        if !calcMem {
          pids, cmds := pids + [h.procs[m].pid], cmds + [h.procs[m].cmd];
        }
        cpus := cpus + [h.procs[m].cpuTicks];
      }
      total := total + h.procs[m].cpuTicks;
    }
    assert ms[..|ms|] == ms;
  }

  // ------------------------------------------------------- the whole call

  /** The output vectors of one call. */
  datatype Report = Report(pids: seq<nat>, cmds: seq<string>, mems: seq<nat>, cpus: seq<nat>)

  /** The vectors that were asked for describe the processes in rows, position by position.  Without memory
      figures the memory vector has one entry per leader only, and likewise for CPU. */
  ghost predicate Describes(src: Sources, calcMem: bool, calcCpu: bool, rows: seq<nat>, r: Report) {
    && (forall j :: 0 <= j < |rows| ==>
          rows[j] < |src.pids| && rows[j] < |src.names| && rows[j] < |src.mems| && rows[j] < |src.cpus|)
    && r.pids == Column(src.pids, rows)
    && r.cmds == Column(src.names, rows)
    && (calcMem ==> r.mems == Column(src.mems, rows))
    && (calcCpu ==> r.cpus == Column(src.cpus, rows))
  }

  /** add holds the rows of one group: its followers, then its leader. */
  ghost predicate GroupReported(src: Sources, calcMem: bool, calcCpu: bool, fs: seq<nat>, l: nat, add: Report) {
    && l < |src.pids| && l < |src.names| && l < |src.mems| && l < |src.cpus|
    && (forall j :: 0 <= j < |fs| ==>
          fs[j] < |src.pids| && fs[j] < |src.names| && fs[j] < |src.mems| && fs[j] < |src.cpus|)
    && add.pids == Column(src.pids, fs) + [src.pids[l]]
    && add.cmds == Column(src.names, fs) + [src.names[l]]
    && (calcMem ==> add.mems == Column(src.mems, fs) + [src.mems[l]])
    && (calcCpu ==> add.cpus == Column(src.cpus, fs) + [src.cpus[l]])
  }

  lemma DescribesStep(src: Sources, calcMem: bool, calcCpu: bool, rows: seq<nat>, r: Report, l: nat, fs: seq<nat>,
                      add: Report)
    requires Describes(src, calcMem, calcCpu, rows, r)
    requires GroupReported(src, calcMem, calcCpu, fs, l, add)
    ensures Describes(src, calcMem, calcCpu, rows + (fs + [l]),
      Report(r.pids + add.pids, r.cmds + add.cmds, r.mems + add.mems, r.cpus + add.cpus))
  {
    ColumnStep(src.pids, rows, fs, l);
    ColumnStep(src.names, rows, fs, l);
    ColumnStep(src.mems, rows, fs, l);
    ColumnStep(src.cpus, rows, fs, l);
  }

  /** The name shown for a leader; without a registry its callsign is always cached by then. */
  method LeaderName(h: Host, cache: map<nat, string>, l: nat) returns (name: string)
    requires CacheHonest(h, cache) && l < |h.procs| && (!Listed(h) ==> h.procs[l].pid in cache)
    ensures name == if Listed(h) then h.procs[l].cmd else CallSign(h, h.procs[l].pid)
  {
    var pid := h.procs[l].pid;
    name := h.procs[l].cmd;
    if |h.registry| == 0 && pid in cache {
      name := cache[pid];
    }
  }

  /** The rows of one group, leader last. */
  method ReportGroup(h: Host, calcMem: bool, calcCpu: bool, cmdCount: map<string, nat>,
                     l: nat, ms: seq<nat>, name: string, ghost p: Plan)
    returns (r: Report)
    requires calcMem || calcCpu
    requires PlanFor(h, p) && FollowersShown(h, p) && OwnMemory(h, p.memUse)
    requires calcMem ==> Counted(h, cmdCount)
    requires l < |h.procs| && ms == Members(p.lead, l, |p.lead|)
    requires name == p.src.names[l] && p.src.mems[l] == Total(p.memUse, ms) && p.src.cpus[l] == Total(p.cpuUse, ms)
    ensures GroupReported(p.src, calcMem, calcCpu, Followers(Listed(h), l, ms), l, r)
  {
    var pids: seq<nat>, cmds: seq<string>, mems: seq<nat>, cpus: seq<nat> := [], [], [], [];
    var memUsage, cpuUsage := 0, 0;
    if calcMem {
      pids, cmds, mems, memUsage := MemoryOfGroup(h, cmdCount, l, ms, p);
    }
    if calcCpu {
      var pids', cmds';
      pids', cmds', cpus, cpuUsage := CpuOfGroup(h, calcMem, l, ms, p);
      pids, cmds := pids + pids', cmds + cmds';
    }
    r := Report(pids + [h.procs[l].pid], cmds + [name], mems + [memUsage], cpus + [cpuUsage]);
  }

  /** The groups' keys are the leaders, each with its members and, without a registry, a cached callsign. */
  ghost predicate GroupsKeyed(h: Host, lead: seq<Option<nat>>, cmdMap: map<nat, seq<nat>>,
                              cache: map<nat, string>)
  {
    && |lead| == |h.procs|
    && forall l :: 0 <= l < |lead| ==>
         (l in cmdMap <==> IsLeader(lead, l)) &&
         (l in cmdMap ==> cmdMap[l] == Members(lead, l, |lead|) && (!Listed(h) ==> h.procs[l].pid in cache))
  }

  /** What the output loop starts from. */
  ghost predicate Prepared(h: Host, calcMem: bool, cmdMap: map<nat, seq<nat>>, cmdCount: map<string, nat>,
                           cache: map<nat, string>, p: Plan)
  {
    && PlanFor(h, p) && FollowersShown(h, p) && OwnMemory(h, p.memUse)
    && (forall l :: 0 <= l < |p.lead| && IsLeader(p.lead, l) ==> LeaderShown(h, p, l))
    && (calcMem ==> Counted(h, cmdCount))
    && CacheHonest(h, cache) && GroupsKeyed(h, p.lead, cmdMap, cache)
  }

  /** One round of the output loop. */
  method ReportNext(h: Host, calcMem: bool, calcCpu: bool, cmdMap: map<nat, seq<nat>>,
                    cmdCount: map<string, nat>, cache: map<nat, string>, l: nat, r0: Report, ghost p: Plan)
    returns (r: Report)
    requires calcMem || calcCpu
    requires Prepared(h, calcMem, cmdMap, cmdCount, cache, p) && l < |h.procs|
    requires Describes(p.src, calcMem, calcCpu, Rows(p.lead, Listed(h), l), r0)
    ensures Describes(p.src, calcMem, calcCpu, Rows(p.lead, Listed(h), l + 1), r)
  {
    r := r0;
    if l in cmdMap {
      var name := LeaderName(h, cache, l);
      var add := ReportGroup(h, calcMem, calcCpu, cmdCount, l, cmdMap[l], name, p);
      DescribesStep(p.src, calcMem, calcCpu, Rows(p.lead, Listed(h), l), r, l,
                    Followers(Listed(h), l, cmdMap[l]), add);
      r := Report(r.pids + add.pids, r.cmds + add.cmds, r.mems + add.mems, r.cpus + add.cpus);
    }
  }

  /** The output loop over the groups, by ascending leader. */
  method ReportGroups(h: Host, calcMem: bool, calcCpu: bool, cmdMap: map<nat, seq<nat>>,
                      cmdCount: map<string, nat>, cache: map<nat, string>, ghost p: Plan)
    returns (r: Report)
    requires calcMem || calcCpu
    requires Prepared(h, calcMem, cmdMap, cmdCount, cache, p)
    ensures Describes(p.src, calcMem, calcCpu, Rows(p.lead, Listed(h), |p.lead|), r)
  {
    r := Report([], [], [], []);
    for l := 0 to |h.procs|
      invariant Describes(p.src, calcMem, calcCpu, Rows(p.lead, Listed(h), l), r)
    {
      r := ReportNext(h, calcMem, calcCpu, cmdMap, cmdCount, cache, l, r, p);
    }
  }

  lemma KeysAreLeaders(h: Host, lead: seq<Option<nat>>, cmdMap: map<nat, seq<nat>>, cache: map<nat, string>)
    requires |lead| == |h.procs| && SelfLed(lead)
    requires GroupsBuilt(lead, |lead|, cmdMap) && LeadersCached(h, cmdMap, cache)
    ensures GroupsKeyed(h, lead, cmdMap, cache)
  {
    forall l | 0 <= l < |lead| && l in cmdMap ensures IsLeader(lead, l) {
      assert cmdMap[l][0] in Members(lead, l, |lead|);
    }
    forall l | 0 <= l < |lead| && IsLeader(lead, l) ensures l in cmdMap {
      assert l in Members(lead, l, |lead|);
    }
  }

  /** The report of a host, by process position. */
  function HostPlan(h: Host): Plan {
    Plan(Leaders(h), Sources(Pids(h), Names(h), AllShown(h, MemUses(h)), AllShown(h, CpuUses(h))),
         MemUses(h), CpuUses(h))
  }

  lemma HostPlanFits(h: Host)
    ensures var p := HostPlan(h);
      && PlanFor(h, p) && FollowersShown(h, p) && OwnMemory(h, p.memUse) && SelfLed(p.lead)
      && forall l :: 0 <= l < |p.lead| && IsLeader(p.lead, l) ==> LeaderShown(h, p, l)
  {
    LeadersSelfLed(h);
  }

  /** The call.  The pid vector lists each reported process once, and every figure vector that was asked for has
      exactly one entry per pid, for that process. */
  method GetProcInfo(h: Host, calcMem: bool, calcCpu: bool) returns (r: Report)
    requires Listing(h)
    ensures !calcMem && !calcCpu ==> r == Report([], [], [], [])
    ensures calcMem || calcCpu ==> Describes(HostPlan(h).src, calcMem, calcCpu, ReportRows(h), r)
  {
    r := Report([], [], [], []);
    if !calcMem && !calcCpu {
      return;
    }
    ghost var p := HostPlan(h);
    HostPlanFits(h);
    var cmdMap, cache := BuildGroups(h, p.lead);
    KeysAreLeaders(h, p.lead, cmdMap, cache);
    var cmdCount: map<string, nat> := map[];
    if calcMem {
      cmdCount := CountCommands(h);
    }
    r := ReportGroups(h, calcMem, calcCpu, cmdMap, cmdCount, cache, p);
  }

  // ------------------------------------------------------- what a report promises

  lemma ListingDistinct(h: Host)
    requires Listing(h)
    ensures Distinct(Pids(h)) && Distinct(ReportRows(h))
  {
    LeadersSelfLed(h);
    RowsDistinct(Leaders(h), Listed(h), |h.procs|);
  }

  /** No pid is reported twice. */
  lemma ReportedOnce(h: Host, calcMem: bool, calcCpu: bool, r: Report)
    requires Listing(h) && Describes(HostPlan(h).src, calcMem, calcCpu, ReportRows(h), r)
    ensures Distinct(r.pids)
  {
    ListingDistinct(h);
    if |h.procs| > 0 {
      ColumnLookup(Pids(h), MemUses(h), ReportRows(h), 0);
    }
  }

  datatype Figure = Memory | Cpu

  function FigureVector(fig: Figure, r: Report): seq<nat> {
    if fig.Memory? then r.mems else r.cpus
  }

  function OwnFigures(h: Host, fig: Figure): (use: seq<nat>)
    ensures |use| == |h.procs|
  {
    if fig.Memory? then MemUses(h) else CpuUses(h)
  }

  function ShownFigures(h: Host, fig: Figure): (shown: seq<nat>)
    ensures |shown| == |h.procs|
  {
    AllShown(h, OwnFigures(h, fig))
  }

  /** What reading a figure of process i by position should give: the total of its group if it leads one; its own
      use if it follows a leader and a registry is loaded; and 0, because it is not reported, otherwise. */
  function FigureOf(h: Host, fig: Figure, i: nat): nat
    requires i < |h.procs|
  {
    if Leader(h, i) == Some(i) then Total(OwnFigures(h, fig), Members(Leaders(h), i, |h.procs|))
    else if Leader(h, i).Some? && |h.registry| != 0 then OwnFigures(h, fig)[i]
    else 0
  }

  lemma RowOrNothing(h: Host, fig: Figure, i: nat)
    requires i < |h.procs|
    ensures FigureOf(h, fig, i) == if i in ReportRows(h) then ShownFigures(h, fig)[i] else 0
  {
    LeadersSelfLed(h);
    RowsContents(Leaders(h), Listed(h), |h.procs|);
  }

  /** Every requested vector has one entry per pid, and reading it by position finds the figure of the process
      asked for. */
  lemma ReportReadsRightProcess(h: Host, calcMem: bool, calcCpu: bool, r: Report, fig: Figure, i: nat)
    requires Listing(h) && i < |h.procs|
    requires if fig.Memory? then calcMem else calcCpu
    requires Describes(HostPlan(h).src, calcMem, calcCpu, ReportRows(h), r)
    ensures |FigureVector(fig, r)| == |r.pids| == |r.cmds|
    ensures Lookup(r.pids, FigureVector(fig, r), h.procs[i].pid) == FigureOf(h, fig, i)
  {
    ListingDistinct(h);
    RowOrNothing(h, fig, i);
    ColumnLookup(Pids(h), ShownFigures(h, fig), ReportRows(h), i);
  }

  /** A pid outside the table reads as 0. */
  lemma UnknownPidReadsZero(h: Host, calcMem: bool, calcCpu: bool, r: Report, fig: Figure, pid: nat)
    requires if fig.Memory? then calcMem else calcCpu
    requires Describes(HostPlan(h).src, calcMem, calcCpu, ReportRows(h), r)
    requires forall i :: 0 <= i < |h.procs| ==> h.procs[i].pid != pid
    ensures |FigureVector(fig, r)| == |r.pids|
    ensures Lookup(r.pids, FigureVector(fig, r), pid) == 0
  {
    forall k | 0 <= k < |r.pids| ensures r.pids[k] != pid {
      assert r.pids[k] == h.procs[ReportRows(h)[k]].pid;
    }
    LookupMissing(r.pids, FigureVector(fig, r), pid);
  }

  /** Sum of the figures shown for leaders. */
  function ShownByLeaders(h: Host, fig: Figure): nat {
    LeaderTotals(Leaders(h), OwnFigures(h, fig), |h.procs|, |h.procs|)
  }

  /** Memory and CPU use are conserved: what the leaders show together is the sum over exactly the processes that
      have a leader. */
  lemma ReportConservesUse(h: Host, fig: Figure)
    ensures ShownByLeaders(h, fig) == AttributedTotal(Leaders(h), OwnFigures(h, fig), |h.procs|)
  {
    LeadersSelfLed(h);
    UsageConserved(Leaders(h), OwnFigures(h, fig), |h.procs|);
  }

  /** So in every report the entries in the rows of leaders add up to the sum over exactly the processes that have a
      leader. */
  lemma ReportSumsToUse(h: Host, calcMem: bool, calcCpu: bool, r: Report, fig: Figure)
    requires if fig.Memory? then calcMem else calcCpu
    requires Describes(HostPlan(h).src, calcMem, calcCpu, ReportRows(h), r)
    ensures |FigureVector(fig, r)| == |ReportRows(h)|
    ensures LeaderEntries(Leaders(h), ReportRows(h), FigureVector(fig, r)) ==
      AttributedTotal(Leaders(h), OwnFigures(h, fig), |h.procs|)
  {
    EntriesAreTotals(Leaders(h), Listed(h), OwnFigures(h, fig), ShownFigures(h, fig), |h.procs|);
    ReportConservesUse(h, fig);
  }

  // ------------------------------------------------------- shared memory

  /** What the processes running cmd that have a leader are charged for shared memory, among the first k. */
  function SharedCharged(h: Host, cmd: string, k: nat): nat
    requires k <= |h.procs|
  {
    if k == 0 then 0
    else SharedCharged(h, cmd, k - 1)
         + if h.procs[k - 1].cmd == cmd && Leader(h, k - 1).Some? then SharedCharge(h, k - 1) else 0
  }

  lemma {:induction false} SharedChargedBound(h: Host, cmd: string, share: nat, k: nat)
    requires k <= |h.procs|
    requires forall i :: 0 <= i < |h.procs| && h.procs[i].cmd == cmd && Leader(h, i).Some? ==>
      SharedCharge(h, i) <= share
    ensures SharedCharged(h, cmd, k) <= CmdCount(h, cmd, k) * share
  {
    if k > 0 {
      SharedChargedBound(h, cmd, share, k - 1);
      var c := CmdCount(h, cmd, k - 1);
      assert (c + 1) * share == c * share + share;
    }
  }

  lemma MulMonotone(d: nat, x: nat, y: nat)
    requires x <= y
    ensures d * x <= d * y
  {
  }

  lemma DivMonotone(a: nat, b: nat, d: nat)
    requires a <= b && d > 0
    ensures a / d <= b / d
  {
    if a / d > b / d {
      MulMonotone(d, b / d + 1, a / d);
      assert false;
    }
  }

  lemma MulDivBound(n: nat, d: nat)
    requires d > 0
    ensures d * (n / d) <= n
  {
  }

  lemma {:induction false} NothingCharged(h: Host, cmd: string, k: nat)
    requires k <= |h.procs| && CmdCount(h, cmd, k) == 0
    ensures SharedCharged(h, cmd, k) == 0
  {
    if k > 0 {
      NothingCharged(h, cmd, k - 1);
    }
  }

  /** Shared memory is never overcharged: for every command, the charges of all its attributed processes together
      stay within the largest shared figure of any one of them. */
  lemma SharedNeverOvercharged(h: Host, cmd: string, largest: nat)
    requires forall i :: 0 <= i < |h.procs| && h.procs[i].cmd == cmd && Leader(h, i).Some? ==>
      SmapsOf(h, h.procs[i].pid).shared <= largest
    ensures SharedCharged(h, cmd, |h.procs|) <= largest
  {
    var all := CmdCount(h, cmd, |h.procs|);
    if all == 0 {
      NothingCharged(h, cmd, |h.procs|);
    } else {
      forall i | 0 <= i < |h.procs| && h.procs[i].cmd == cmd && Leader(h, i).Some?
        ensures SharedCharge(h, i) <= largest / all
      {
        DivMonotone(SmapsOf(h, h.procs[i].pid).shared, largest, all);
      }
      SharedChargedBound(h, cmd, largest / all, |h.procs|);
      MulDivBound(largest, all);
    }
  }
}
