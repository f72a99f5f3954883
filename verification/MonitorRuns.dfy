/** What one monitored application reports over a whole run of the monitoring loop. */
module MonitorRuns {
  import opened Wrappers
  import opened Thresholds
  import opened MonitorLoop
  import ProcInfo

  /** The application and the total tick count after the first k passes. */
  function AppAt(app: App, sights: seq<Sight>, k: nat): (App, nat)
    requires k <= |sights|
  {
    if k == 0 then (app, 0)
    else
      var before := AppAt(app, sights, k - 1);
      var s := sights[k - 1];
      (AppPass(before.0, before.1, s).0, if s.cpuCheck then s.total else before.1)
  }

  /** The notices sent for it in the first k passes. */
  function SentFor(app: App, sights: seq<Sight>, k: nat): seq<Notice>
    requires k <= |sights|
  {
    if k == 0 then []
    else
      var before := AppAt(app, sights, k - 1);
      SentFor(app, sights, k - 1) + AppPass(before.0, before.1, sights[k - 1]).1
  }

  function MemEvents(notices: seq<Notice>): seq<MemEvent> {
    if |notices| == 0 then []
    else
      var before := MemEvents(notices[..|notices| - 1]);
      match notices[|notices| - 1]
      case MemNotice(_, ev) => before + [ev]
      case CpuNotice(_, _) => before
  }

  function CpuEventsOf(notices: seq<Notice>): seq<CpuEvent> {
    if |notices| == 0 then []
    else
      var before := CpuEventsOf(notices[..|notices| - 1]);
      match notices[|notices| - 1]
      case MemNotice(_, _) => before
      case CpuNotice(_, ev) => before + [ev]
  }

  /** The memory figures of pid that the first k passes check. */
  function MemFigures(pid: nat, sights: seq<Sight>, k: nat): seq<nat>
    requires k <= |sights|
  {
    if k == 0 then []
    else if sights[k - 1].memCheck then
      MemFigures(pid, sights, k - 1) + [FigureFor(sights[k - 1].host, ProcInfo.Memory, pid)]
    else MemFigures(pid, sights, k - 1)
  }

  datatype Ticks = Ticks(usage: nat, total: nat, samples: seq<CpuSample>)

  /** The tick counts remembered after k passes and the CPU samples evaluated in them.  A sample is evaluated when
      both the previous total and the previous usage are known. */
  function TicksAt(pid: nat, sights: seq<Sight>, k: nat): Ticks
    requires k <= |sights|
  {
    if k == 0 then Ticks(0, 0, [])
    else
      var t, s := TicksAt(pid, sights, k - 1), sights[k - 1];
      if !s.cpuCheck then t
      else if t.total == 0 then Ticks(0, s.total, t.samples)
      else
        var usage := FigureFor(s.host, ProcInfo.Cpu, pid);
        Ticks(usage, s.total,
              if t.usage == 0 then t.samples
              else t.samples + [CpuSample(Percents(t.usage, usage, t.total, s.total), s.now)])
  }

  lemma {:induction false} MachineIgnoresLater(lim: CpuLimits, run: seq<CpuSample>, later: CpuSample, k: nat)
    requires k <= |run|
    ensures CpuAt(lim, run + [later], k) == CpuAt(lim, run, k)
    ensures CpuEvents(lim, run + [later], k) == CpuEvents(lim, run, k)
  {
    if k > 0 {
      MachineIgnoresLater(lim, run, later, k - 1);
    }
  }

  lemma EventsSnoc(notices: seq<Notice>, n: Notice)
    ensures MemEvents(notices + [n]) == MemEvents(notices) + if n.MemNotice? then [n.mem] else []
    ensures CpuEventsOf(notices + [n]) == CpuEventsOf(notices) + if n.CpuNotice? then [n.cpu] else []
  {
  }

  function Events<T>(ev: Option<T>): seq<T> {
    if ev.Some? then [ev.value] else []
  }

  /** The notices of one pass add its memory event and its CPU event to the respective histories. */
  lemma NoticesSplit(notices: seq<Notice>, mem: Option<MemEvent>, cpu: Option<CpuEvent>, pid: nat)
    ensures var all := notices + ((if mem.Some? then [MemNotice(pid, mem.value)] else [])
                                  + (if cpu.Some? then [CpuNotice(pid, cpu.value)] else []));
      && MemEvents(all) == MemEvents(notices) + Events(mem)
      && CpuEventsOf(all) == CpuEventsOf(notices) + Events(cpu)
  {
    var one := notices + (if mem.Some? then [MemNotice(pid, mem.value)] else []);
    var all := one + (if cpu.Some? then [CpuNotice(pid, cpu.value)] else []);
    assert all == notices + ((if mem.Some? then [MemNotice(pid, mem.value)] else [])
                             + (if cpu.Some? then [CpuNotice(pid, cpu.value)] else []));
    if mem.Some? {
      EventsSnoc(notices, MemNotice(pid, mem.value));
    } else {
      assert one == notices;
    }
    if cpu.Some? {
      EventsSnoc(one, CpuNotice(pid, cpu.value));
    } else {
      assert all == one;
    }
  }

  predicate Fresh(app: App) {
    app.latch == 0 && app.cpuUsage == 0 && app.machine == FRESH
  }

  /** The application's state and notices after k passes are those of the two machines run separately on the figures
      of its own pid: the memory machine on every checked figure, the CPU machine on every evaluated sample. */
  ghost predicate RunsMachines(app: App, sights: seq<Sight>, k: nat)
    requires k <= |sights|
  {
    var now := AppAt(app, sights, k);
    var t := TicksAt(app.pid, sights, k);
    var mem := MemRun(app.memThreshold, MemFigures(app.pid, sights, k));
    && now.1 == t.total
    && now.0 == app.(latch := mem.0, cpuUsage := t.usage, machine := CpuAt(app.limits, t.samples, |t.samples|))
    && MemEvents(SentFor(app, sights, k)) == mem.1
    && CpuEventsOf(SentFor(app, sights, k)) == CpuEvents(app.limits, t.samples, |t.samples|)
  }

  lemma RunStart(app: App, sights: seq<Sight>)
    requires Fresh(app)
    ensures RunsMachines(app, sights, 0)
  {
    hide FigureFor, MemStep, CpuStep, AppPass;
  }

  /** The memory half of a pass. */
  lemma MemHalf(app: App, sights: seq<Sight>, k: nat)
    requires k < |sights| && RunsMachines(app, sights, k)
    ensures var part, mem := MemPart(AppAt(app, sights, k).0, sights[k]),
                             MemRun(app.memThreshold, MemFigures(app.pid, sights, k + 1));
      && part.0 == AppAt(app, sights, k).0.(latch := mem.0)
      && MemEvents(SentFor(app, sights, k)) + Events(part.1) == mem.1
  {
  }

  lemma CpuRunSnoc(lim: CpuLimits, run: seq<CpuSample>, s: CpuSample)
    ensures var step := CpuStep(lim, CpuAt(lim, run, |run|), s);
      && CpuAt(lim, run + [s], |run| + 1) == step.0
      && CpuEvents(lim, run + [s], |run| + 1) == CpuEvents(lim, run, |run|) + Events(step.1)
  {
    MachineIgnoresLater(lim, run, s, |run|);
  }

  /** The CPU half of a pass, on the application as the memory half leaves it. */
  lemma CpuHalf(app: App, sights: seq<Sight>, k: nat, latch: nat)
    requires k < |sights| && RunsMachines(app, sights, k)
    ensures var before, t := AppAt(app, sights, k), TicksAt(app.pid, sights, k + 1);
      var part := CpuPart(before.0.(latch := latch), before.1, sights[k]);
      && part.0 == before.0.(latch := latch, cpuUsage := t.usage,
                             machine := CpuAt(app.limits, t.samples, |t.samples|))
      && CpuEventsOf(SentFor(app, sights, k)) + Events(part.1) == CpuEvents(app.limits, t.samples, |t.samples|)
  {
    hide FigureFor, CpuStep;
    var s, t := sights[k], TicksAt(app.pid, sights, k);
    if s.cpuCheck && t.total != 0 && t.usage != 0 {
      var usage := FigureFor(s.host, ProcInfo.Cpu, app.pid);
      CpuRunSnoc(app.limits, t.samples, CpuSample(Percents(t.usage, usage, t.total, s.total), s.now));
    }
  }

  lemma RunStep(app: App, sights: seq<Sight>, k: nat)
    requires k < |sights| && RunsMachines(app, sights, k)
    ensures RunsMachines(app, sights, k + 1)
  {
    var s, before := sights[k], AppAt(app, sights, k);
    MemHalf(app, sights, k);
    hide FigureFor, MemPart, CpuPart;
    var mem := MemPart(before.0, s);
    CpuHalf(app, sights, k, mem.0.latch);
    var cpu := CpuPart(mem.0, before.1, s);
    NoticesSplit(SentFor(app, sights, k), mem.1, cpu.1, app.pid);
  }

  lemma {:induction false} RunMeaning(app: App, sights: seq<Sight>, k: nat)
    requires Fresh(app) && k <= |sights|
    ensures RunsMachines(app, sights, k)
  {
    hide RunsMachines;
    if k == 0 {
      RunStart(app, sights);
    } else {
      RunMeaning(app, sights, k - 1);
      RunStep(app, sights, k - 1);
    }
  }

  /** What pass k tells the clients about memory, in terms of what they have been told and the figure it reads. */
  ghost predicate MemTold(app: App, s: Sight, before: seq<MemEvent>, after: seq<MemEvent>) {
    if s.memCheck then MemReports(app.memThreshold, before, FigureFor(s.host, ProcInfo.Memory, app.pid), after)
    else after == before
  }

  lemma MemNoticesExactly(app: App, sights: seq<Sight>, k: nat)
    requires Fresh(app) && app.memThreshold > 0 && k < |sights|
    ensures MemTold(app, sights[k], MemEvents(SentFor(app, sights, k)), MemEvents(SentFor(app, sights, k + 1)))
  {
    var u := FigureFor(sights[k].host, ProcInfo.Memory, app.pid);
    RunMeaning(app, sights, k);
    RunMeaning(app, sights, k + 1);
    hide FigureFor, MemRun, MemReports, SentFor, MemEvents, CpuEventsOf, AppAt, CpuEvents, CpuAt;
    MemRunReports(app.memThreshold, MemFigures(app.pid, sights, k), u);
  }

  /** What pass k tells the clients about CPU: the verdict on the sample it evaluates, if it evaluates one. */
  ghost predicate CpuTold(app: App, sights: seq<Sight>, k: nat, before: seq<CpuEvent>, after: seq<CpuEvent>)
    requires k < |sights|
  {
    var samples, samples' := TicksAt(app.pid, sights, k).samples, TicksAt(app.pid, sights, k + 1).samples;
    if samples' == samples then after == before
    else |samples'| == |samples| + 1 && after == before + Events(Verdict(app.limits, samples', |samples|))
  }

  /** The CPU events of a longer run are the verdict more. */
  lemma CpuRunReports(lim: CpuLimits, run: seq<CpuSample>, s: CpuSample)
    ensures CpuEvents(lim, run + [s], |run| + 1) ==
      CpuEvents(lim, run, |run|) + Events(Verdict(lim, run + [s], |run|))
  {
    CpuMachineIsVerdict(lim, run + [s], |run|);
    hide Verdict, CpuStep, CpuAt;
    MachineIgnoresLater(lim, run, s, |run|);
  }

  lemma SamplesGrow(pid: nat, sights: seq<Sight>, k: nat)
    requires k < |sights|
    ensures var samples, samples' := TicksAt(pid, sights, k).samples, TicksAt(pid, sights, k + 1).samples;
      samples' == samples || exists s :: samples' == samples + [s]
  {
    hide FigureFor, Percents;
  }

  lemma CpuNoticesExactly(app: App, sights: seq<Sight>, k: nat)
    requires Fresh(app) && k < |sights|
    ensures CpuTold(app, sights, k, CpuEventsOf(SentFor(app, sights, k)), CpuEventsOf(SentFor(app, sights, k + 1)))
  {
    RunMeaning(app, sights, k);
    RunMeaning(app, sights, k + 1);
    SamplesGrow(app.pid, sights, k);
    hide MemRun, SentFor, MemEvents, CpuEventsOf, AppAt, CpuAt, CpuEvents, Verdict, MemFigures, TicksAt, Events;
    var samples, samples' := TicksAt(app.pid, sights, k).samples, TicksAt(app.pid, sights, k + 1).samples;
    if samples' != samples {
      var s :| samples' == samples + [s];
      CpuRunReports(app.limits, samples, s);
    }
  }

  /** Over every run, what an application is told alternates exceeded and receded, starting with exceeded, for CPU;
      and for memory as well when its threshold is positive, with every figure on the right side of its limit. */
  lemma RunAlternates(app: App, sights: seq<Sight>)
    requires Fresh(app)
    ensures CpuAlternates(CpuEventsOf(SentFor(app, sights, |sights|)))
    ensures app.memThreshold > 0 ==>
      var events := MemEvents(SentFor(app, sights, |sights|));
      && MemAlternates(events) && MemFiguresRight(app.memThreshold, events)
      && AppAt(app, sights, |sights|).0.latch == Unmatched(events)
  {
    RunMeaning(app, sights, |sights|);
    var t := TicksAt(app.pid, sights, |sights|);
    CpuEventsAlternate(app.limits, t.samples, |t.samples|);
    if app.memThreshold > 0 {
      MemRunMeaning(app.memThreshold, MemFigures(app.pid, sights, |sights|));
    }
  }
}
