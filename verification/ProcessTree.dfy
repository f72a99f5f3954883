/** The attribution part of MemoryInfo::getProcInfo: every process is charged to its topmost marked ancestor. */
module ProcessTree {
  import opened Wrappers

  datatype Proc = Proc(pid: nat, ppid: nat, cmd: string, cpuTicks: nat)

  datatype Smaps = Smaps(pvt: nat, shared: nat)

  /** What one call sees: the process table in directory order, the registry, the pid of the framework
      process, the callsign on each command line and the memory figures of each process. */
  datatype Host = Host(procs: seq<Proc>, registry: map<string, string>, self: nat,
                       callSigns: map<nat, string>, smaps: map<nat, Smaps>)

  /** A directory listing of processes: pids are positive and distinct. */
  ghost predicate Listing(h: Host) {
    && (forall i :: 0 <= i < |h.procs| ==> h.procs[i].pid != 0)
    && (forall i, j :: 0 <= i < j < |h.procs| ==> h.procs[i].pid != h.procs[j].pid)
  }

  function CallSign(h: Host, pid: nat): string {
    if pid in h.callSigns then h.callSigns[pid] else ""
  }

  /** Position of pid in the first k processes; pidMap's operator[] makes a missing pid position 0. */
  function Position(h: Host, k: nat, pid: nat): (i: nat)
    requires k <= |h.procs|
    ensures k > 0 ==> i < k
  {
    if k == 0 then 0
    else if h.procs[k - 1].pid == pid then k - 1
    else Position(h, k - 1, pid)
  }

  /** Position of the parent of process i, as the climb finds it. */
  function Parent(h: Host, i: nat): (p: nat)
    requires i < |h.procs|
    ensures p < |h.procs|
  {
    Position(h, |h.procs|, h.procs[i].ppid)
  }

  /** Can process i lead a group?  With a registry: its command is registered.  Without one: it is a child of
      the framework process and has a callsign. */
  predicate Marked(h: Host, i: nat)
    requires i < |h.procs|
  {
    if |h.registry| != 0 then h.procs[i].cmd in h.registry
    else h.procs[i].ppid == h.self && CallSign(h, h.procs[i].pid) != ""
  }

  // ------------------------------------------------------- paths to the root

  /** p runs from process i through parents to a process without one. */
  ghost predicate RootPath(h: Host, i: nat, p: seq<nat>)
    decreases |p|
  {
    && i < |h.procs| && |p| > 0 && p[0] == i
    && if |p| == 1 then h.procs[i].ppid == 0
       else h.procs[i].ppid != 0 && RootPath(h, Parent(h, i), p[1..])
  }

  predicate InTable(h: Host, p: seq<nat>) {
    forall k :: 0 <= k < |p| ==> p[k] < |h.procs|
  }

  /** The path to the root, if it has at most fuel processes. */
  function Path(h: Host, i: nat, fuel: nat): (r: Option<seq<nat>>)
    requires i < |h.procs|
    ensures r.Some? ==> RootPath(h, i, r.value) && |r.value| <= fuel && InTable(h, r.value)
    decreases fuel, |h.procs|
  {
    if fuel == 0 then None
    else if h.procs[i].ppid == 0 then Some([i])
    else match Path(h, Parent(h, i), fuel - 1)
      case None => None
      case Some(rest) =>
        assert ([i] + rest)[1..] == rest;
        Some([i] + rest)
  }

  lemma {:induction false} RootPathIsPath(h: Host, i: nat, fuel: nat, p: seq<nat>)
    requires RootPath(h, i, p) && |p| <= fuel
    ensures i < |h.procs| && Path(h, i, fuel) == Some(p)
    decreases fuel
  {
    if |p| > 1 {
      RootPathIsPath(h, Parent(h, i), fuel - 1, p[1..]);
      assert p == [i] + p[1..];
    } else {
      assert p == [i];
    }
  }

  /** A suffix of a path to the root is the path of the process it starts at. */
  lemma {:induction false} SuffixIsRootPath(h: Host, i: nat, p: seq<nat>, k: nat)
    requires RootPath(h, i, p) && k < |p|
    ensures RootPath(h, p[k], p[k..])
    decreases k
  {
    if k > 0 {
      SuffixIsRootPath(h, Parent(h, i), p[1..], k - 1);
      assert p[1..][k - 1..] == p[k..];
    } else {
      assert p[0..] == p;
    }
  }

  lemma RootPathsEqual(h: Host, i: nat, p: seq<nat>, q: seq<nat>)
    requires RootPath(h, i, p) && RootPath(h, i, q)
    ensures p == q
  {
    var fuel := |p| + |q|;
    RootPathIsPath(h, i, fuel, p);
    RootPathIsPath(h, i, fuel, q);
  }

  /** A chain that meets a process twice never ends at a root, so the climb drops it. */
  lemma RootPathHasNoCycle(h: Host, i: nat, p: seq<nat>, a: nat, b: nat)
    requires RootPath(h, i, p) && a < b < |p|
    ensures p[a] != p[b]
  {
    if p[a] == p[b] {
      SuffixIsRootPath(h, i, p, a);
      SuffixIsRootPath(h, i, p, b);
      RootPathsEqual(h, p[a], p[a..], p[b..]);
      assert false;
    }
  }

  // ------------------------------------------------------- leaders

  /** The last marked process on a path. */
  function TopMarked(h: Host, p: seq<nat>): (r: Option<nat>)
    requires InTable(h, p)
    ensures r.Some? ==> r.value < |h.procs| && Marked(h, r.value)
  {
    if |p| == 0 then None
    else
      var rest := TopMarked(h, p[1..]);
      if rest.Some? then rest
      else if Marked(h, p[0]) then Some(p[0]) else None
  }

  const MAX_CLIMB := 100

  /** The process that i is charged to: the topmost marked process on its path to the root.  None when nothing
      on the path is marked, and when there is no path of at most 100 processes (over-deep chains, cycles). */
  function Leader(h: Host, i: nat): (r: Option<nat>)
    requires i < |h.procs|
    ensures r.Some? ==> r.value < |h.procs| && Marked(h, r.value)
  {
    match Path(h, i, MAX_CLIMB)
    case None => None
    case Some(p) => TopMarked(h, p)
  }

  lemma {:induction false} NoneMarked(h: Host, p: seq<nat>)
    requires InTable(h, p)
    ensures TopMarked(h, p) == None <==> forall n :: 0 <= n < |p| ==> !Marked(h, p[n])
  {
    if |p| > 0 {
      NoneMarked(h, p[1..]);
      assert forall n :: 0 < n < |p| ==> p[n] == p[1..][n - 1];
    }
  }

  /** Nothing above the top marked process is marked. */
  lemma {:induction false} TopMarkedSplit(h: Host, p: seq<nat>) returns (k: nat)
    requires InTable(h, p)
    requires TopMarked(h, p).Some?
    ensures k < |p| && TopMarked(h, p) == Some(p[k])
    ensures forall n :: k < n < |p| ==> !Marked(h, p[n])
    ensures TopMarked(h, p[k..]) == Some(p[k])
  {
    var rest := TopMarked(h, p[1..]);
    if rest.Some? {
      var m := TopMarkedSplit(h, p[1..]);
      k := m + 1;
      assert p[1..][m..] == p[k..];
      forall n | k < n < |p| ensures !Marked(h, p[n]) {
        assert p[n] == p[1..][n - 1];
      }
    } else {
      k := 0;
      assert p[0..] == p;
      NoneMarked(h, p[1..]);
      forall n | 0 < n < |p| ensures !Marked(h, p[n]) {
        assert p[n] == p[1..][n - 1];
      }
    }
  }

  /** The leader of a process is its own leader: groups never chain. */
  lemma LeaderLeadsItself(h: Host, i: nat)
    requires i < |h.procs| && Leader(h, i).Some?
    ensures var l := Leader(h, i).value; Leader(h, l) == Some(l)
  {
    var p := Path(h, i, MAX_CLIMB).value;
    var k := TopMarkedSplit(h, p);
    SuffixIsRootPath(h, i, p, k);
    RootPathIsPath(h, p[k], MAX_CLIMB, p[k..]);
  }

  /** Leadership stated without the climb: l leads i exactly when l is a marked process on a path from i to a
      root that has at most 100 processes, and no process beyond it on that path is marked. */
  ghost predicate Leads(h: Host, l: nat, i: nat, p: seq<nat>, k: nat) {
    && RootPath(h, i, p) && |p| <= MAX_CLIMB && InTable(h, p)
    && k < |p| && p[k] == l && Marked(h, l)
    && forall n :: k < n < |p| ==> !Marked(h, p[n])
  }

  lemma LeaderMeaning(h: Host, i: nat, l: nat)
    requires i < |h.procs|
    ensures Leader(h, i) == Some(l) <==> exists p, k :: Leads(h, l, i, p, k)
  {
    if Leader(h, i) == Some(l) {
      var p := Path(h, i, MAX_CLIMB).value;
      var k := TopMarkedSplit(h, p);
      assert Leads(h, l, i, p, k);
    }
    if exists p, k :: Leads(h, l, i, p, k) {
      var p, k :| Leads(h, l, i, p, k);
      RootPathIsPath(h, i, MAX_CLIMB, p);
      NoneMarked(h, p);
      assert Marked(h, p[k]);
      var m := TopMarkedSplit(h, p);
      assert m == k;
    }
  }

  // ------------------------------------------------------- the climb itself

  ghost predicate PidMapBuilt(h: Host, k: nat, pidMap: map<nat, nat>)
    requires k <= |h.procs|
  {
    forall pid: nat {:trigger Position(h, k, pid)} :: (if pid in pidMap then pidMap[pid] else 0) == Position(h, k, pid)
  }

  method BuildPidMap(h: Host) returns (pidMap: map<nat, nat>)
    ensures PidMapBuilt(h, |h.procs|, pidMap)
  {
    pidMap := map[];
    for n := 0 to |h.procs|
      invariant PidMapBuilt(h, n, pidMap)
    {
      pidMap := pidMap[h.procs[n].pid := n];
    }
  }

  /** The callsign cache holds only what the command lines say. */
  ghost predicate CacheHonest(h: Host, cache: map<nat, string>) {
    forall pid :: pid in cache ==> cache[pid] == CallSign(h, pid) && cache[pid] != ""
  }

  /** What is decided once the rest of the path is known: its top marked process if it has one, the best seen
      so far otherwise; |procs| stands for "none". */
  function Resolve(h: Host, rest: Option<seq<nat>>, last: nat): nat
    requires rest.Some? ==> InTable(h, rest.value)
  {
    match rest
    case None => |h.procs|
    case Some(p) => match TopMarked(h, p)
      case Some(t) => t
      case None => last
  }

  /** One visit: the process at idx becomes the best so far when it is marked; the callsign of a child of the
      framework process is read once and cached. */
  method Visit(h: Host, idx: nat, last: nat, cache0: map<nat, string>)
    returns (lastIdx: nat, cache: map<nat, string>)
    requires idx < |h.procs| && CacheHonest(h, cache0)
    ensures CacheHonest(h, cache) && cache0.Keys <= cache.Keys
    ensures lastIdx == if Marked(h, idx) then idx else last
    ensures Marked(h, idx) && |h.registry| == 0 ==> h.procs[idx].pid in cache
  {
    lastIdx, cache := last, cache0;
    var here := h.procs[idx];
    if |h.registry| != 0 {
      if here.cmd in h.registry {
        lastIdx := idx;
      }
    } else if here.ppid == h.self {
      if here.pid !in cache {
        var callSign := CallSign(h, here.pid);
        if |callSign| > 0 {
          cache := cache[here.pid := callSign];
          lastIdx := idx;
        }
      } else {
        lastIdx := idx;
      }
    }
  }

  /** What is decided when the climb stands before pid with fuel levels left and last as the best so far. */
  function Decision(h: Host, pid: nat, fuel: nat, last: nat): nat
    requires |h.procs| > 0
  {
    if pid == 0 then last else Resolve(h, Path(h, Position(h, |h.procs|, pid), fuel), last)
  }

  /** What the climb keeps about its maps: they are right, and the best so far has its callsign cached. */
  ghost predicate MapsKept(h: Host, pidMap: map<nat, nat>, cache0: map<nat, string>, cache: map<nat, string>,
                           last: nat)
  {
    && PidMapBuilt(h, |h.procs|, pidMap)
    && CacheHonest(h, cache) && cache0.Keys <= cache.Keys
    && (last < |h.procs| && |h.registry| == 0 ==> h.procs[last].pid in cache)
  }

  /** One level of the climb keeps the decision. */
  lemma ClimbStep(h: Host, i: nat, fuel: nat, last: nat)
    requires i < |h.procs| && fuel > 0
    ensures var last' := if Marked(h, i) then i else last;
      Resolve(h, Path(h, i, fuel), last) ==
      if h.procs[i].ppid == 0 then last' else Resolve(h, Path(h, Parent(h, i), fuel - 1), last')
  {
    if h.procs[i].ppid == 0 {
      var p := [i];
      assert p[1..] == [] && Path(h, i, fuel) == Some(p);
      assert TopMarked(h, p) == if Marked(h, p[0]) then Some(p[0]) else None;
    } else {
      match Path(h, Parent(h, i), fuel - 1)
      case None =>
      case Some(rest) =>
        assert ([i] + rest)[1..] == rest;
    }
  }

  /** One level of the climb; looking an unknown pid up inserts it into pidMap with position 0. */
  method Level(h: Host, pid: nat, cnt: nat, last: nat, pidMap0: map<nat, nat>, cache0: map<nat, string>,
               ghost start: map<nat, string>)
    returns (stop: bool, next: nat, lastIdx: nat, pidMap: map<nat, nat>, cache: map<nat, string>)
    requires |h.procs| > 0 && pid != 0 && cnt <= MAX_CLIMB
    requires MapsKept(h, pidMap0, start, cache0, last)
    ensures MapsKept(h, pidMap, start, cache, lastIdx)
    ensures stop ==> lastIdx == Decision(h, pid, MAX_CLIMB - cnt, last)
    ensures !stop ==> cnt < MAX_CLIMB
    ensures !stop ==>
      Decision(h, next, MAX_CLIMB - (cnt + 1), lastIdx) == Decision(h, pid, MAX_CLIMB - cnt, last)
  {
    var idx := if pid in pidMap0 then pidMap0[pid] else 0;
    assert idx == Position(h, |h.procs|, pid);
    pidMap := pidMap0[pid := idx];
    lastIdx, cache := Visit(h, idx, last, cache0);
    next, stop := h.procs[idx].ppid, cnt >= MAX_CLIMB;
    if stop {
      lastIdx := |h.procs|;
    } else {
      ClimbStep(h, idx, MAX_CLIMB - cnt, last);
    }
  }

  /** A pid in the table is found. */
  lemma {:induction false} PositionFinds(h: Host, k: nat, j: nat)
    requires j < k <= |h.procs|
    ensures h.procs[Position(h, k, h.procs[j].pid)].pid == h.procs[j].pid
  {
    if j < k - 1 {
      PositionFinds(h, k - 1, j);
    }
  }

  /** In a listing every process is found at its own position. */
  lemma ListedPosition(h: Host, n: nat)
    requires Listing(h) && n < |h.procs|
    ensures Position(h, |h.procs|, h.procs[n].pid) == n
  {
    PositionFinds(h, |h.procs|, n);
  }

  /** The climb over the parents of process n, with the callsign cache it fills.  It visits at most 101
      processes. */
  method Climb(h: Host, n: nat, ghost leader: Option<nat>, pidMap0: map<nat, nat>, cache0: map<nat, string>)
    returns (lastIdx: nat, pidMap: map<nat, nat>, cache: map<nat, string>)
    requires Listing(h) && n < |h.procs| && leader == Leader(h, n)
    requires PidMapBuilt(h, |h.procs|, pidMap0) && CacheHonest(h, cache0)
    ensures MapsKept(h, pidMap, cache0, cache, lastIdx)
    ensures lastIdx == match leader case Some(l) => l case None => |h.procs|
    ensures leader.Some? ==> leader.value < |h.procs|
  {
    pidMap, cache, lastIdx := pidMap0, cache0, |h.procs|;
    var pid, cnt, stop := h.procs[n].pid, 0, false;
    ListedPosition(h, n);
    ghost var target := match leader case Some(l) => l case None => |h.procs|;
    while pid != 0 && !stop
      invariant cnt <= MAX_CLIMB
      invariant MapsKept(h, pidMap, cache0, cache, lastIdx)
      invariant target == if stop then lastIdx else Decision(h, pid, MAX_CLIMB - cnt, lastIdx)
      decreases !stop, MAX_CLIMB - cnt
    {
      stop, pid, lastIdx, pidMap, cache := Level(h, pid, cnt, lastIdx, pidMap, cache, cache0);
      cnt := if stop then cnt else cnt + 1;
    }
  }
}
