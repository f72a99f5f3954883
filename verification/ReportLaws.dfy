/** What a report of getProcInfo says, in terms of the process table alone: who is in it, in which order, under which
    name and with which figures. */
module ReportLaws {
  import opened Wrappers
  import opened ProcessTree
  import opened Groups
  import opened ProcInfo

  // ------------------------------------------------------- memory

  /** The processes that run the same command as process i. */
  function SameCommand(h: Host, i: nat): set<nat>
    requires i < |h.procs|
  {
    set j: nat | j < |h.procs| && h.procs[j].cmd == h.procs[i].cmd
  }

  function Private(h: Host, i: nat): nat
    requires i < |h.procs|
  {
    if h.procs[i].pid in h.smaps then h.smaps[h.procs[i].pid].pvt else 0
  }

  function Shared(h: Host, i: nat): nat
    requires i < |h.procs|
  {
    if h.procs[i].pid in h.smaps then h.smaps[h.procs[i].pid].shared else 0
  }

  /** share is what is left when process i's shared kilobytes are divided evenly among the n processes that run its
      command, and u is the whole megabytes in that and its private ones. */
  ghost predicate ChargedWith(h: Host, i: nat, u: nat, share: nat)
    requires i < |h.procs|
  {
    var n := |SameCommand(h, i)|;
    n * share <= Shared(h, i) < n * (share + 1) && 1024 * u <= Private(h, i) + share < 1024 * (u + 1)
  }

  ghost predicate Charged(h: Host, i: nat, u: nat)
    requires i < |h.procs|
  {
    exists share: nat :: ChargedWith(h, i, u, share)
  }

  lemma {:induction false} CountIsCardinality(h: Host, cmd: string, k: nat)
    requires k <= |h.procs|
    ensures CmdCount(h, cmd, k) == |set j: nat | j < k && h.procs[j].cmd == cmd|
  {
    if k > 0 {
      CountIsCardinality(h, cmd, k - 1);
      var before := set j: nat | j < k - 1 && h.procs[j].cmd == cmd;
      var now := set j: nat | j < k && h.procs[j].cmd == cmd;
      if h.procs[k - 1].cmd == cmd {
        assert now == before + {k - 1} && k - 1 !in before;
      } else {
        assert now == before;
      }
    }
  }

  lemma DivisionBounds(a: nat, n: nat)
    requires n > 0
    ensures n * (a / n) <= a < n * (a / n + 1)
  {
    assert a == n * (a / n) + a % n;
  }

  lemma QuotientOnce(a: nat, n: nat, x: nat, y: nat)
    requires n * x <= a < n * (x + 1) && n * y <= a < n * (y + 1)
    ensures x == y
  {
    if x < y {
      MulMonotone(n, x + 1, y);
    } else if y < x {
      MulMonotone(n, y + 1, x);
    }
  }

  lemma MemUseIsCharged(h: Host, i: nat)
    requires i < |h.procs|
    ensures Charged(h, i, MemUse(h, i))
  {
    CountIsCardinality(h, h.procs[i].cmd, |h.procs|);
    var n, share := |SameCommand(h, i)|, SharedCharge(h, i);
    DivisionBounds(Shared(h, i), n);
    assert ChargedWith(h, i, MemUse(h, i), share);
  }

  /** There is only one such figure, so a process can be charged neither more nor less. */
  lemma ChargedOnce(h: Host, i: nat, u: nat, v: nat)
    requires i < |h.procs| && Charged(h, i, u) && Charged(h, i, v)
    ensures u == v
  {
    var s: nat :| ChargedWith(h, i, u, s);
    var t: nat :| ChargedWith(h, i, v, t);
    QuotientOnce(Shared(h, i), |SameCommand(h, i)|, s, t);
  }

  ghost predicate AllCharged(h: Host, use: seq<nat>) {
    |use| == |h.procs| && forall i :: 0 <= i < |use| ==> Charged(h, i, use[i])
  }

  /** The entry for process i: the sum over its group if it leads one, its own figure otherwise. */
  function EntryFor(h: Host, use: seq<nat>, i: nat): nat
    requires i < |h.procs| == |use|
  {
    if Leader(h, i) == Some(i) then Total(use, Members(Leaders(h), i, |h.procs|)) else use[i]
  }

  lemma UsesAreCharged(h: Host, use: seq<nat>)
    ensures AllCharged(h, MemUses(h))
    ensures AllCharged(h, use) ==> use == MemUses(h)
  {
    forall i: nat | i < |h.procs| ensures Charged(h, i, MemUses(h)[i]) {
      MemUseIsCharged(h, i);
    }
    if AllCharged(h, use) {
      forall i: nat | i < |h.procs| ensures use[i] == MemUses(h)[i] {
        ChargedOnce(h, i, use[i], MemUses(h)[i]);
      }
    }
  }

  /** Every memory entry of a report. */
  lemma MemoryEntries(h: Host, calcCpu: bool, r: Report, use: seq<nat>, j: nat)
    requires Describes(HostPlan(h).src, true, calcCpu, ReportRows(h), r) && j < |ReportRows(h)| && AllCharged(h, use)
    ensures |r.mems| == |ReportRows(h)| && r.mems[j] == EntryFor(h, use, ReportRows(h)[j])
  {
    UsesAreCharged(h, use);
    hide MemUses, AllCharged, Charged, ReportRows, Leader;
  }

  /** Such figures exist for every table. */
  lemma FiguresExist(h: Host)
    ensures exists use :: AllCharged(h, use)
  {
    UsesAreCharged(h, MemUses(h));
  }

  // ------------------------------------------------------- CPU

  ghost predicate AllTicks(h: Host, use: seq<nat>) {
    |use| == |h.procs| && forall i :: 0 <= i < |use| ==> use[i] == h.procs[i].cpuTicks
  }

  /** Every CPU entry of a report. */
  lemma CpuEntries(h: Host, calcMem: bool, r: Report, use: seq<nat>, j: nat)
    requires Describes(HostPlan(h).src, calcMem, true, ReportRows(h), r) && j < |ReportRows(h)| && AllTicks(h, use)
    ensures |r.cpus| == |ReportRows(h)| && r.cpus[j] == EntryFor(h, use, ReportRows(h)[j])
  {
    assert use == CpuUses(h);
    hide CpuUses, AllTicks, ReportRows, Leader;
  }

  // ------------------------------------------------------- who is reported

  lemma {:induction false} MissingIsFirst(h: Host, k: nat, pid: nat)
    requires k <= |h.procs| && forall j :: 0 <= j < k ==> h.procs[j].pid != pid
    ensures Position(h, k, pid) == 0
  {
    if k > 0 {
      MissingIsFirst(h, k - 1, pid);
    }
  }

  /** In a listing, the parent is the process whose pid is the parent pid; a parent that is not listed is taken to be
      the first process. */
  lemma ParentMeans(h: Host, i: nat)
    requires Listing(h) && i < |h.procs|
    ensures (exists j :: 0 <= j < |h.procs| && h.procs[j].pid == h.procs[i].ppid) ==>
      h.procs[Parent(h, i)].pid == h.procs[i].ppid
    ensures (forall j :: 0 <= j < |h.procs| ==> h.procs[j].pid != h.procs[i].ppid) ==> Parent(h, i) == 0
  {
    if j: nat :| j < |h.procs| && h.procs[j].pid == h.procs[i].ppid {
      PositionFinds(h, |h.procs|, j);
    } else {
      MissingIsFirst(h, |h.procs|, h.procs[i].ppid);
    }
  }

  /** A path of at most 100 processes from process i to one without a parent. */
  ghost predicate ShortRootPath(h: Host, i: nat, p: seq<nat>) {
    RootPath(h, i, p) && |p| <= 100 && InTable(h, p)
  }

  /** With a registry, a process is reported exactly when it or one of its ancestors runs a registered command. */
  ghost predicate HasRegistered(h: Host, i: nat) {
    exists p :: ShortRootPath(h, i, p) && exists k :: 0 <= k < |p| && h.procs[p[k]].cmd in h.registry
  }

  predicate Plugin(h: Host, i: nat)
    requires i < |h.procs|
  {
    var pid := h.procs[i].pid;
    h.procs[i].ppid == h.self && pid in h.callSigns && h.callSigns[pid] != ""
  }

  /** Without one, exactly when it is a child of the framework process with a callsign, and none of its ancestors is. */
  ghost predicate TopPlugin(h: Host, i: nat) {
    exists p :: ShortRootPath(h, i, p) && Plugin(h, i) && forall k :: 0 < k < |p| ==> !Plugin(h, p[k])
  }

  lemma LeaderIffMarkedPath(h: Host, i: nat)
    requires i < |h.procs|
    ensures Leader(h, i).Some? <==>
      exists p :: ShortRootPath(h, i, p) && exists k :: 0 <= k < |p| && Marked(h, p[k])
  {
    if Leader(h, i).Some? {
      LeaderMeaning(h, i, Leader(h, i).value);
      var p, k :| Leads(h, Leader(h, i).value, i, p, k);
      assert ShortRootPath(h, i, p) && Marked(h, p[k]);
    }
    if p :| ShortRootPath(h, i, p) && exists k :: 0 <= k < |p| && Marked(h, p[k]) {
      RootPathIsPath(h, i, MAX_CLIMB, p);
      NoneMarked(h, p);
    }
  }

  lemma SelfLeaderIffTop(h: Host, i: nat)
    requires i < |h.procs|
    ensures Leader(h, i) == Some(i) <==>
      exists p :: ShortRootPath(h, i, p) && Marked(h, i) && forall k :: 0 < k < |p| ==> !Marked(h, p[k])
  {
    LeaderMeaning(h, i, i);
    if Leader(h, i) == Some(i) {
      var p, k :| Leads(h, i, i, p, k);
      if k > 0 {
        RootPathHasNoCycle(h, i, p, 0, k);
      }
      assert ShortRootPath(h, i, p);
    }
    if p :| ShortRootPath(h, i, p) && Marked(h, i) && forall k :: 0 < k < |p| ==> !Marked(h, p[k]) {
      assert Leads(h, i, i, p, 0);
    }
  }

  lemma MarkedMeans(h: Host, i: nat)
    requires i < |h.procs|
    ensures |h.registry| != 0 ==> (Marked(h, i) <==> h.procs[i].cmd in h.registry)
    ensures |h.registry| == 0 ==> (Marked(h, i) <==> Plugin(h, i))
  {
  }

  lemma LeaderInTable(h: Host, i: nat)
    requires i < |h.procs|
    ensures Leader(h, i).Some? ==> Leader(h, i).value < |h.procs|
  {
  }

  /** Who is in a report, with and without a registry. */
  lemma ReportedExactly(h: Host, i: nat)
    requires i < |h.procs|
    ensures |h.registry| != 0 ==> (i in ReportRows(h) <==> HasRegistered(h, i))
    ensures |h.registry| == 0 ==> (i in ReportRows(h) <==> TopPlugin(h, i))
  {
    LeadersSelfLed(h);
    RowsContents(Leaders(h), Listed(h), |h.procs|);
    LeaderIffMarkedPath(h, i);
    SelfLeaderIffTop(h, i);
    forall k: nat | k < |h.procs|
      ensures |h.registry| != 0 ==> (Marked(h, k) <==> h.procs[k].cmd in h.registry)
      ensures |h.registry| == 0 ==> (Marked(h, k) <==> Plugin(h, k))
    {
      MarkedMeans(h, k);
    }
    LeaderInTable(h, i);
    hide Marked, Leader, RootPath, SelfLed;
  }

  /** The command column: each process under its own command when there is a registry, else under its callsign, which is
      not empty. */
  lemma NameEntries(h: Host, calcMem: bool, calcCpu: bool, r: Report, j: nat)
    requires Describes(HostPlan(h).src, calcMem, calcCpu, ReportRows(h), r) && j < |ReportRows(h)|
    ensures |r.cmds| == |ReportRows(h)|
    ensures var i := ReportRows(h)[j];
      if |h.registry| != 0 then r.cmds[j] == h.procs[i].cmd
      else Plugin(h, i) && r.cmds[j] == h.callSigns[h.procs[i].pid]
  {
    var i := ReportRows(h)[j];
    assert i in ReportRows(h);
    ReportedExactly(h, i);
    LeadersSelfLed(h);
    RowsContents(Leaders(h), Listed(h), |h.procs|);
    hide ReportRows, Leader, HasRegistered, RootPath;
  }

  // ------------------------------------------------------- the order

  predicate Before(lead: seq<Option<nat>>, x: nat, y: nat) {
    && x < |lead| && y < |lead| && lead[x].Some? && lead[y].Some?
    && lead[x].value <= lead[y].value
    && (lead[x] == lead[y] ==> lead[x] != Some(x) && (lead[y] == Some(y) || x < y))
  }

  /** Groups come by ascending leader, and each leader after its followers. */
  ghost predicate InOrder(lead: seq<Option<nat>>, rows: seq<nat>) {
    forall a, b :: 0 <= a < b < |rows| ==> Before(lead, rows[a], rows[b])
  }

  predicate Ascending(rows: seq<nat>) {
    forall a, b :: 0 <= a < b < |rows| ==> rows[a] < rows[b]
  }

  lemma AscendSnoc(rows: seq<nat>, last: nat)
    requires Ascending(rows) && forall x: nat :: x in rows ==> x < last
    ensures Ascending(rows + [last])
  {
    forall a: nat | a < |rows| ensures rows[a] < last {
      assert rows[a] in rows;
    }
  }

  lemma {:induction false} MembersAscend(lead: seq<Option<nat>>, l: nat, k: nat)
    requires k <= |lead|
    ensures Ascending(Members(lead, l, k))
  {
    if k > 0 {
      MembersAscend(lead, l, k - 1);
      AscendSnoc(Members(lead, l, k - 1), k - 1);
    }
  }

  lemma {:induction false} FollowersAscend(listed: bool, l: nat, ms: seq<nat>)
    requires Ascending(ms)
    ensures Ascending(Followers(listed, l, ms))
  {
    if |ms| > 0 {
      var init, last := ms[..|ms| - 1], ms[|ms| - 1];
      FollowersAscend(listed, l, init);
      forall x: nat | x in Followers(listed, l, init) ensures x < last {
        var i :| 0 <= i < |init| && init[i] == x;
      }
      AscendSnoc(Followers(listed, l, init), last);
    }
  }

  lemma FollowersThenLeader(lead: seq<Option<nat>>, fs: seq<nat>, l: nat)
    requires IsLeader(lead, l) && Ascending(fs)
    requires forall a: nat :: a < |fs| ==> fs[a] < |lead| && lead[fs[a]] == Some(l) && fs[a] != l
    ensures InOrder(lead, fs + [l])
  {
    var rows := fs + [l];
    forall a: nat, b: nat | a < b < |rows| ensures Before(lead, rows[a], rows[b]) {
      assert rows[a] == fs[a];
      if b < |fs| {
        assert rows[b] == fs[b];
      }
    }
  }

  lemma GroupInOrder(lead: seq<Option<nat>>, listed: bool, l: nat)
    requires IsLeader(lead, l)
    ensures InOrder(lead, GroupRows(lead, listed, l))
  {
    var ms := Members(lead, l, |lead|);
    var fs := Followers(listed, l, ms);
    MembersAscend(lead, l, |lead|);
    FollowersAscend(listed, l, ms);
    forall a: nat | a < |fs| ensures fs[a] < |lead| && lead[fs[a]] == Some(l) && fs[a] != l {
      assert fs[a] in fs;
    }
    FollowersThenLeader(lead, fs, l);
  }

  lemma OrderConcat(lead: seq<Option<nat>>, xs: seq<nat>, ys: seq<nat>)
    requires InOrder(lead, xs) && InOrder(lead, ys)
    requires forall x: nat, y: nat :: x in xs && y in ys ==> Before(lead, x, y)
    ensures InOrder(lead, xs + ys)
  {
    var all := xs + ys;
    forall a, b | 0 <= a < b < |all| ensures Before(lead, all[a], all[b]) {
      if a < |xs| <= b {
        assert all[a] in xs && all[b] in ys;
      }
    }
  }

  lemma NothingInOrder(lead: seq<Option<nat>>)
    ensures InOrder(lead, [])
  {
  }

  lemma {:induction false} RowsInOrder(lead: seq<Option<nat>>, listed: bool, k: nat)
    requires k <= |lead| && SelfLed(lead)
    ensures InOrder(lead, Rows(lead, listed, k))
  {
    hide InOrder;
    if k == 0 {
      NothingInOrder(lead);
    } else {
      RowsInOrder(lead, listed, k - 1);
      if IsLeader(lead, k - 1) {
        RowsContents(lead, listed, k - 1);
        GroupInOrder(lead, listed, k - 1);
        OrderConcat(lead, Rows(lead, listed, k - 1), GroupRows(lead, listed, k - 1));
      }
    }
  }
}
