/** The one list of notices that the monitoring loop sends for all its applications, over a whole run. */
module MonitorNotices {
  import opened Wrappers
  import opened Thresholds
  import opened ProcessTree
  import opened MonitorLoop
  import opened MonitorRuns
  import ProcInfo
  import Groups

  /** All applications and the total tick count after the first k passes. */
  function AppsAt(apps: seq<App>, sights: seq<Sight>, k: nat): (r: (seq<App>, nat))
    requires k <= |sights|
    ensures |r.0| == |apps|
  {
    if k == 0 then (apps, 0)
    else
      var (now, total) := AppsAt(apps, sights, k - 1);
      var s := sights[k - 1];
      var results := PassResults(now, total, s);
      (seq(|apps|, i requires 0 <= i < |apps| => results[i].0), if s.cpuCheck then s.total else total)
  }

  /** Everything sent in the first k passes, in order. */
  function AllSent(apps: seq<App>, sights: seq<Sight>, k: nat): seq<Notice>
    requires k <= |sights|
  {
    if k == 0 then []
    else
      var (now, total) := AppsAt(apps, sights, k - 1);
      AllSent(apps, sights, k - 1) + Sent(PassResults(now, total, sights[k - 1]))
  }

  lemma AfterPass(apps: seq<App>, sights: seq<Sight>, k: nat, now: seq<App>)
    requires k < |sights| && |now| == |apps|
    requires var before := AppsAt(apps, sights, k);
      forall i :: 0 <= i < |now| ==> now[i] == AppPass(before.0[i], before.1, sights[k]).0
    ensures var before := AppsAt(apps, sights, k);
      && AppsAt(apps, sights, k + 1) == (now, if sights[k].cpuCheck then sights[k].total else before.1)
      && AllSent(apps, sights, k + 1) == AllSent(apps, sights, k) + Sent(PassResults(before.0, before.1, sights[k]))
  {
    hide AppPass, Sent;
    var (before, total) := AppsAt(apps, sights, k);
    var results := PassResults(before, total, sights[k]);
    assert now == seq(|apps|, i requires 0 <= i < |apps| => results[i].0);
  }

  lemma NothingYet(apps: seq<App>, sights: seq<Sight>)
    ensures AppsAt(apps, sights, 0) == (apps, 0) && AllSent(apps, sights, 0) == []
  {
  }

  /** The monitor stands where k passes bring a new parameter block for apps. */
  ghost predicate After(m: Monitor, apps: seq<App>, sights: seq<Sight>, k: nat)
    reads m, m.config
    requires k <= |sights|
  {
    && m.Valid()
    && (m.Apps(), m.totalCpuUsage) == AppsAt(apps, sights, k)
    && m.notices == AllSent(apps, sights, k)
  }

  method NextPass(m: Monitor, ghost apps: seq<App>, sights: seq<Sight>, k: nat)
    requires k < |sights| && After(m, apps, sights, k) && Listing(sights[k].host)
    modifies m`totalCpuUsage, m`notices, m.config
    ensures After(m, apps, sights, k + 1)
  {
    hide AppPass, Sent, PassResults, AppsAt, AllSent, Listing;
    m.Pass(sights[k]);
    AfterPass(apps, sights, k, m.Apps());
  }

  /** The loop of monitoring, for as many passes as there are sights, on a new parameter block. */
  method Monitoring(m: Monitor, ghost apps: seq<App>, sights: seq<Sight>)
    requires m.Valid() && m.Apps() == apps && m.totalCpuUsage == 0 && m.notices == []
    requires forall i :: 0 <= i < |sights| ==> Listing(sights[i].host)
    modifies m`totalCpuUsage, m`notices, m.config
    ensures After(m, apps, sights, |sights|)
  {
    NothingYet(apps, sights);
    hide AppsAt, AllSent, Listing;
    for k := 0 to |sights|
      invariant After(m, apps, sights, k)
    {
      NextPass(m, apps, sights, k);
    }
  }

  // ------------------------------------------------------- the notices of one application

  /** Each application goes its own way. */
  lemma {:induction false} AppsRunAlone(apps: seq<App>, sights: seq<Sight>, k: nat, i: nat)
    requires k <= |sights| && i < |apps|
    ensures (AppsAt(apps, sights, k).0[i], AppsAt(apps, sights, k).1) == AppAt(apps[i], sights, k)
    ensures AppAt(apps[i], sights, k).0.pid == apps[i].pid
  {
    if k > 0 {
      AppsRunAlone(apps, sights, k - 1, i);
    }
  }

  function PidOf(n: Notice): nat {
    match n
    case MemNotice(pid, _) => pid
    case CpuNotice(pid, _) => pid
  }

  /** The notices for one pid. */
  function Of(notices: seq<Notice>, pid: nat): seq<Notice> {
    if notices == [] then []
    else
      var before, last := Of(notices[..|notices| - 1], pid), notices[|notices| - 1];
      if PidOf(last) == pid then before + [last] else before
  }

  lemma {:induction false} OfConcat(a: seq<Notice>, b: seq<Notice>, pid: nat)
    ensures Of(a + b, pid) == Of(a, pid) + Of(b, pid)
  {
    if b == [] {
      assert a + b == a;
    } else {
      OfConcat(a, b[..|b| - 1], pid);
      assert (a + b)[..|a + b| - 1] == a + b[..|b| - 1];
    }
  }

  /** A pass over an application speaks of that application only. */
  lemma OfAppPass(app: App, prevTotal: nat, s: Sight, pid: nat)
    ensures Of(AppPass(app, prevTotal, s).1, pid) == if app.pid == pid then AppPass(app, prevTotal, s).1 else []
  {
    hide MemPart, CpuPart;
    var (app1, mem) := MemPart(app, s);
    var (app2, cpu) := CpuPart(app1, prevTotal, s);
    var first := if mem.Some? then [MemNotice(app.pid, mem.value)] else [];
    var second := if cpu.Some? then [CpuNotice(app.pid, cpu.value)] else [];
    OfConcat(first, second, pid);
  }

  lemma OfNoResult(results: seq<(App, seq<Notice>)>, pid: nat)
    ensures Of(Sent(results[..0]), pid) == []
  {
  }

  lemma OfNextResult(results: seq<(App, seq<Notice>)>, n: nat, pid: nat)
    requires n < |results|
    ensures Of(Sent(results[..n + 1]), pid) == Of(Sent(results[..n]), pid) + Of(results[n].1, pid)
  {
    assert results[..n + 1][..n] == results[..n];
    OfConcat(Sent(results[..n]), results[n].1, pid);
  }

  /** One more pass. */
  lemma OfNextPass(apps: seq<App>, sights: seq<Sight>, k: nat, pid: nat)
    requires k < |sights|
    ensures var (now, total) := AppsAt(apps, sights, k);
      Of(AllSent(apps, sights, k + 1), pid) ==
      Of(AllSent(apps, sights, k), pid) + Of(Sent(PassResults(now, total, sights[k])[..|apps|]), pid)
  {
    hide AppPass, Of;
    var (now, total) := AppsAt(apps, sights, k);
    var results := PassResults(now, total, sights[k]);
    assert results[..|apps|] == results;
    OfConcat(AllSent(apps, sights, k), Sent(results), pid);
  }

  ghost predicate DistinctPids(apps: seq<App>) {
    forall i, j :: 0 <= i < j < |apps| ==> apps[i].pid != apps[j].pid
  }

  /** One pass, up to application n: the notices for a pid are those of the one application that has it. */
  lemma {:induction false} OfPass(apps: seq<App>, prevTotal: nat, s: Sight, i: nat, n: nat)
    requires DistinctPids(apps) && i < |apps| && n <= |apps|
    ensures Of(Sent(PassResults(apps, prevTotal, s)[..n]), apps[i].pid) ==
      if i < n then AppPass(apps[i], prevTotal, s).1 else []
  {
    hide AppPass, Of, Sent;
    OfNoResult(PassResults(apps, prevTotal, s), apps[i].pid);
    if n > 0 {
      OfPass(apps, prevTotal, s, i, n - 1);
      OfAppPass(apps[n - 1], prevTotal, s, apps[i].pid);
      OfNextResult(PassResults(apps, prevTotal, s), n - 1, apps[i].pid);
    }
  }

  lemma {:induction false} PidsStay(apps: seq<App>, sights: seq<Sight>, k: nat)
    requires k <= |sights|
    ensures forall i :: 0 <= i < |apps| ==> AppsAt(apps, sights, k).0[i].pid == apps[i].pid
  {
    forall i | 0 <= i < |apps| ensures AppsAt(apps, sights, k).0[i].pid == apps[i].pid {
      AppsRunAlone(apps, sights, k, i);
    }
  }

  /** With distinct pids, what the loop sends for a pid over a run is what its application sends when run alone. */
  lemma {:induction false} SentOfPid(apps: seq<App>, sights: seq<Sight>, k: nat, i: nat)
    requires DistinctPids(apps) && k <= |sights| && i < |apps|
    ensures Of(AllSent(apps, sights, k), apps[i].pid) == SentFor(apps[i], sights, k)
  {
    NothingYet(apps, sights);
    hide AppPass, Sent, PassResults, AppsAt, AllSent, AppAt;
    if k > 0 {
      var (now, total) := AppsAt(apps, sights, k - 1);
      SentOfPid(apps, sights, k - 1, i);
      AppsRunAlone(apps, sights, k - 1, i);
      PidsStay(apps, sights, k - 1);
      OfPass(now, total, sights[k - 1], i, |now|);
      OfNextPass(apps, sights, k - 1, apps[i].pid);
    }
  }

  lemma {:induction false} OfStranger(apps: seq<App>, prevTotal: nat, s: Sight, pid: nat, n: nat)
    requires n <= |apps| && forall i :: 0 <= i < |apps| ==> apps[i].pid != pid
    ensures Of(Sent(PassResults(apps, prevTotal, s)[..n]), pid) == []
  {
    hide AppPass, Of, Sent;
    OfNoResult(PassResults(apps, prevTotal, s), pid);
    if n > 0 {
      OfStranger(apps, prevTotal, s, pid, n - 1);
      OfAppPass(apps[n - 1], prevTotal, s, pid);
      OfNextResult(PassResults(apps, prevTotal, s), n - 1, pid);
    }
  }

  /** A pid that is not configured is never spoken of. */
  lemma {:induction false} NothingForStrangers(apps: seq<App>, sights: seq<Sight>, k: nat, pid: nat)
    requires k <= |sights| && forall i :: 0 <= i < |apps| ==> apps[i].pid != pid
    ensures Of(AllSent(apps, sights, k), pid) == []
  {
    NothingYet(apps, sights);
    hide AppPass, Sent, PassResults, AppsAt, AllSent;
    if k > 0 {
      var (now, total) := AppsAt(apps, sights, k - 1);
      NothingForStrangers(apps, sights, k - 1, pid);
      PidsStay(apps, sights, k - 1);
      OfStranger(now, total, sights[k - 1], pid, |now|);
      OfNextPass(apps, sights, k - 1, pid);
    }
  }

  /** Pass by pass, what the clients hear about a pid is exactly what its figures and what they have heard before call
      for. */
  lemma ToldExactly(apps: seq<App>, sights: seq<Sight>, k: nat, i: nat)
    requires DistinctPids(apps) && k < |sights| && i < |apps| && Fresh(apps[i]) && apps[i].memThreshold > 0
    ensures var before := Of(AllSent(apps, sights, k), apps[i].pid);
      var after := Of(AllSent(apps, sights, k + 1), apps[i].pid);
      MemTold(apps[i], sights[k], MemEvents(before), MemEvents(after)) &&
      CpuTold(apps[i], sights, k, CpuEventsOf(before), CpuEventsOf(after))
  {
    SentOfPid(apps, sights, k, i);
    SentOfPid(apps, sights, k + 1, i);
    MemNoticesExactly(apps[i], sights, k);
    CpuNoticesExactly(apps[i], sights, k);
    hide MemTold, CpuTold, AllSent, Of, SentFor, MemEvents, CpuEventsOf;
  }

  // ------------------------------------------------------- when a pid is configured twice

  /** What enableMonitoring makes of its entries: pids are positive and nothing is open. */
  ghost predicate Configured(apps: seq<App>) {
    forall i :: 0 <= i < |apps| ==> Fresh(apps[i]) && apps[i].pid > 0
  }

  ghost predicate PositiveThresholds(apps: seq<App>) {
    forall i :: 0 <= i < |apps| ==> apps[i].memThreshold > 0
  }

  ghost predicate Alternates(notices: seq<Notice>, pid: nat) {
    MemAlternates(MemEvents(Of(notices, pid))) && CpuAlternates(CpuEventsOf(Of(notices, pid)))
  }

  /** In every run, what the clients are told about any pid alternates, starting with exceeded, for memory and for
      CPU. */
  ghost predicate AlwaysAlternates(apps: seq<App>) {
    forall sights: seq<Sight>, pid: nat ::
      (forall i :: 0 <= i < |sights| ==> Listing(sights[i].host)) ==> Alternates(AllSent(apps, sights, |sights|), pid)
  }

  /** A table with one process, which uses mb megabytes. */
  function OneProcess(pid: nat, mb: nat): Host {
    Host([Proc(pid, 0, "a", 0)], map["a" := "a"], 0, map[], map[pid := Smaps(1024 * mb, 0)])
  }

  lemma OneProcessLeads(pid: nat, mb: nat)
    ensures Leader(OneProcess(pid, mb), 0) == Some(0)
  {
    var h := OneProcess(pid, mb);
    var p := [0 as nat];
    assert RootPath(h, 0, p);
    RootPathIsPath(h, 0, MAX_CLIMB, p);
    assert p[1..] == [] && TopMarked(h, []) == None;
  }

  lemma OneProcessTotal(pid: nat, mb: nat)
    ensures var h := OneProcess(pid, mb);
      Groups.Total(ProcInfo.OwnFigures(h, ProcInfo.Memory), Groups.Members(ProcInfo.Leaders(h), 0, 1)) == mb
  {
    var h := OneProcess(pid, mb);
    OneProcessLeads(pid, mb);
    hide Leader;
    assert ProcInfo.CmdCount(h, "a", 1) == 1;
    assert ProcInfo.OwnFigures(h, ProcInfo.Memory) == [mb];
    assert Groups.Members(ProcInfo.Leaders(h), 0, 1) == [0];
    assert Groups.Total([mb], [0]) == mb;
  }

  lemma OneProcessUses(pid: nat, mb: nat, other: nat)
    requires pid > 0
    ensures Listing(OneProcess(pid, mb))
    ensures FigureFor(OneProcess(pid, mb), ProcInfo.Memory, other) == if other == pid then mb else 0
  {
    OneProcessLeads(pid, mb);
    OneProcessTotal(pid, mb);
    assert Position(OneProcess(pid, mb), 1, other) == 0;
    hide Leader, ProcInfo.OwnFigures, ProcInfo.Leaders, Groups.Total, Groups.Members, Position;
  }

  function MaxThreshold(apps: seq<App>): (t: nat)
    ensures forall i :: 0 <= i < |apps| ==> apps[i].memThreshold <= t
  {
    if apps == [] then 0
    else
      var t := MaxThreshold(apps[..|apps| - 1]);
      if t < apps[|apps| - 1].memThreshold then apps[|apps| - 1].memThreshold else t
  }

  /** How many of the first n applications have the pid. */
  function Having(apps: seq<App>, pid: nat, n: nat): nat
    requires n <= |apps|
  {
    if n == 0 then 0 else Having(apps, pid, n - 1) + if apps[n - 1].pid == pid then 1 else 0
  }

  lemma {:induction false} HavingTwo(apps: seq<App>, i: nat, j: nat, n: nat)
    requires i < |apps| && j < |apps| && apps[i].pid == apps[j].pid && i < j && n <= |apps|
    ensures Having(apps, apps[i].pid, n) >= (if i < n then 1 else 0) + (if j < n then 1 else 0)
  {
    if n > 0 {
      HavingTwo(apps, i, j, n - 1);
    }
  }

  /** The memory events among the notices are n exceeded events. */
  ghost predicate OnlyExceeded(notices: seq<Notice>, n: nat) {
    var events := MemEvents(notices);
    |events| == n && forall i :: 0 <= i < n ==> events[i].MemExceeded?
  }

  lemma OneMoreExceeded(notices: seq<Notice>, n: nat, pid: nat, mb: nat)
    requires OnlyExceeded(notices, n)
    ensures OnlyExceeded(notices + [MemNotice(pid, MemExceeded(mb))], n + 1)
    ensures OnlyExceeded(notices + [], n)
  {
    EventsSnoc(notices, MemNotice(pid, MemExceeded(mb)));
    assert notices + [] == notices;
  }

  lemma NoneExceeded(apps: seq<App>, s: Sight, pid: nat)
    ensures OnlyExceeded(Of(Sent(PassResults(apps, 0, s)[..0]), pid), 0)
  {
    hide AppPass;
  }

  lemma OverReports(app: App, s: Sight, pid: nat, mb: nat)
    requires Fresh(app) && mb >= app.memThreshold && s.memCheck && !s.cpuCheck
    requires FigureFor(s.host, ProcInfo.Memory, app.pid) == if app.pid == pid then mb else 0
    ensures Of(AppPass(app, 0, s).1, pid) == if app.pid == pid then [MemNotice(pid, MemExceeded(mb))] else []
  {
    hide FigureFor;
    OfAppPass(app, 0, s, pid);
  }

  /** In a pass in which the pid's figure is over every threshold, each application that has it reports it. */
  lemma {:induction false} AllExceed(apps: seq<App>, s: Sight, pid: nat, mb: nat, n: nat)
    requires Configured(apps) && n <= |apps| && mb >= MaxThreshold(apps)
    requires s.memCheck && !s.cpuCheck
    requires forall other: nat :: FigureFor(s.host, ProcInfo.Memory, other) == if other == pid then mb else 0
    ensures OnlyExceeded(Of(Sent(PassResults(apps, 0, s)[..n]), pid), Having(apps, pid, n))
  {
    hide FigureFor, AppPass, Of, OnlyExceeded;
    if n == 0 {
      NoneExceeded(apps, s, pid);
    } else {
      var results := PassResults(apps, 0, s);
      AllExceed(apps, s, pid, mb, n - 1);
      OverReports(apps[n - 1], s, pid, mb);
      OfNextResult(results, n - 1, pid);
      OneMoreExceeded(Of(Sent(results[..n - 1]), pid), Having(apps, pid, n - 1), pid, mb);
    }
  }

  lemma FailsAt(apps: seq<App>, sights: seq<Sight>, pid: nat)
    requires forall i :: 0 <= i < |sights| ==> Listing(sights[i].host)
    requires !Alternates(AllSent(apps, sights, |sights|), pid)
    ensures !AlwaysAlternates(apps)
  {
  }

  lemma TwiceFails(apps: seq<App>, i: nat, j: nat)
    requires Configured(apps) && i < j < |apps| && apps[i].pid == apps[j].pid
    ensures !AlwaysAlternates(apps)
  {
    var pid, mb := apps[i].pid, MaxThreshold(apps);
    assert apps[i].memThreshold <= mb;
    var s := Sight(OneProcess(pid, mb), true, false, 0, 0.0);
    forall other: nat ensures FigureFor(s.host, ProcInfo.Memory, other) == if other == pid then mb else 0 {
      OneProcessUses(pid, mb, other);
    }
    OneProcessUses(pid, mb, pid);
    hide FigureFor, AppPass, OneProcess, Listing, AlwaysAlternates;
    AllExceed(apps, s, pid, mb, |apps|);
    HavingTwo(apps, i, j, |apps|);
    var results := PassResults(apps, 0, s);
    assert results[..|apps|] == results;
    var sights := [s];
    assert AllSent(apps, sights, 1) == [] + Sent(results);
    assert [] + Sent(results) == Sent(results);
    var events := MemEvents(Of(AllSent(apps, sights, 1), pid));
    assert events[..|events| - 1][|events| - 2].MemExceeded?;
    assert !MemAlternates(events);
    FailsAt(apps, sights, pid);
  }

  /** A memory check that sees no process. */
  const EMPTY := Sight(Host([], map[], 0, map[], map[]), true, false, 0, 0.0)

  lemma EmptyFigures(pid: nat)
    ensures MemFigures(pid, [EMPTY, EMPTY], 2) == [0, 0]
  {
    var sights := [EMPTY, EMPTY];
    assert FigureFor(EMPTY.host, ProcInfo.Memory, pid) == 0;
    hide FigureFor;
    assert MemFigures(pid, sights, 0) == [];
    assert MemFigures(pid, sights, 1) == [0];
  }

  lemma ZeroAlone(app: App)
    requires Fresh(app) && app.memThreshold == 0
    ensures !MemAlternates(MemEvents(SentFor(app, [EMPTY, EMPTY], 2)))
  {
    RunMeaning(app, [EMPTY, EMPTY], 2);
    EmptyFigures(app.pid);
    ZeroRepeats();
    hide MemFigures, MemRun, MemAlternates, MemEvents, SentFor, CpuEvents, CpuAt, TicksAt, AppAt, CpuEventsOf;
  }

  /** A threshold of 0 is exceeded again and again by a process that is not there. */
  lemma ZeroFails(apps: seq<App>, i: nat)
    requires Configured(apps) && DistinctPids(apps) && i < |apps| && apps[i].memThreshold == 0
    ensures !AlwaysAlternates(apps)
  {
    var sights := [EMPTY, EMPTY];
    SentOfPid(apps, sights, 2, i);
    ZeroAlone(apps[i]);
    assert Listing(EMPTY.host);
    hide AllSent, SentFor, MemAlternates, MemEvents, CpuAlternates, CpuEventsOf, Of, Listing, AlwaysAlternates;
    FailsAt(apps, sights, apps[i].pid);
  }

  /** enableMonitoring accepts the same pid twice, and thresholds of 0.  What is told about each pid alternates in all
      runs if and only if no pid was given twice and all memory thresholds are positive. */
  lemma AlternatesExactly(apps: seq<App>)
    requires Configured(apps)
    ensures AlwaysAlternates(apps) <==> DistinctPids(apps) && PositiveThresholds(apps)
  {
    if !DistinctPids(apps) {
      var i: nat, j: nat :| i < j < |apps| && apps[i].pid == apps[j].pid;
      TwiceFails(apps, i, j);
    } else if !PositiveThresholds(apps) {
      var i: nat :| i < |apps| && apps[i].memThreshold == 0;
      ZeroFails(apps, i);
    } else {
      forall sights: seq<Sight>, pid: nat | forall i :: 0 <= i < |sights| ==> Listing(sights[i].host)
        ensures Alternates(AllSent(apps, sights, |sights|), pid)
      {
        if i: nat :| i < |apps| && apps[i].pid == pid {
          SentOfPid(apps, sights, |sights|, i);
          RunAlternates(apps[i], sights);
        } else {
          NothingForStrangers(apps, sights, |sights|, pid);
        }
      }
    }
  }
}
