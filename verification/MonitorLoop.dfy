/** The body of ActivityMonitor::monitoring over its list of applications, and what whole runs of it report. */
module MonitorLoop {
  import opened Wrappers
  import opened Thresholds
  import opened ProcessTree
  import ProcInfo
  import Groups

  /** The contents of one AppConfig. */
  datatype App = App(pid: nat, memThreshold: nat, limits: CpuLimits, latch: nat, cpuUsage: nat, machine: CpuMachine)

  datatype Notice = MemNotice(pid: nat, mem: MemEvent) | CpuNotice(pid: nat, cpu: CpuEvent)

  /** CPU share since the last check; inconsistent tick counts read as 0. */
  function Percents(prev: nat, usage: nat, prevTotal: nat, total: nat): nat {
    if usage < prev then 0
    else if total <= prevTotal then 0
    else 100 * (usage - prev) / (total - prevTotal)
  }

  lemma WholePart(p: nat, passed: nat)
    requires p > 100
    ensures p * passed >= 101 * passed
  {
  }

  /** A share is the whole part of the percentage, never more than 100 when no more ticks were used than passed; when
      ticks went backwards, or none passed, it is 0. */
  lemma PercentsMeans(prev: nat, usage: nat, prevTotal: nat, total: nat)
    ensures var p, passed := Percents(prev, usage, prevTotal, total), total - prevTotal;
      if prev <= usage && prevTotal < total
      then p * passed <= 100 * (usage - prev) < (p + 1) * passed && (usage - prev <= passed ==> p <= 100)
      else p == 0
  {
    if prev <= usage && prevTotal < total {
      var used, passed := 100 * (usage - prev), total - prevTotal;
      var p := Percents(prev, usage, prevTotal, total);
      assert used == p * passed + used % passed;
      if p > 100 {
        WholePart(p, passed);
      }
    }
  }

  /** One CPU check of an application.  The machine runs only when both the previous total and the previous usage
      are known; the usage is looked up only when the previous total is. */
  function CpuCheck(app: App, reported: nat, prevTotal: nat, total: nat, now: real): (App, Option<CpuEvent>) {
    if prevTotal == 0 then (app.(cpuUsage := 0), None)
    else if app.cpuUsage == 0 then (app.(cpuUsage := reported), None)
    else
      var s := CpuSample(Percents(app.cpuUsage, reported, prevTotal, total), now);
      var step := CpuStep(app.limits, app.machine, s);
      (app.(cpuUsage := reported, machine := step.0), step.1)
  }

  /** The figure a check reads for pid. */
  function FigureFor(h: Host, fig: ProcInfo.Figure, pid: nat): nat {
    var i := Position(h, |h.procs|, pid);
    if i < |h.procs| && h.procs[i].pid == pid then ProcInfo.FigureOf(h, fig, i) else 0
  }

  /** What one pass of the loop sees, besides the configuration. */
  datatype Sight = Sight(host: Host, memCheck: bool, cpuCheck: bool, total: nat, now: real)

  function MemPart(app: App, s: Sight): (App, Option<MemEvent>) {
    if s.memCheck then
      var step := MemStep(app.memThreshold, app.latch, FigureFor(s.host, ProcInfo.Memory, app.pid));
      (app.(latch := step.0), step.1)
    else (app, None)
  }

  function CpuPart(app: App, prevTotal: nat, s: Sight): (App, Option<CpuEvent>) {
    if s.cpuCheck then CpuCheck(app, FigureFor(s.host, ProcInfo.Cpu, app.pid), prevTotal, s.total, s.now)
    else (app, None)
  }

  /** One pass over one application: its new contents and the notices sent for it. */
  function AppPass(app: App, prevTotal: nat, s: Sight): (App, seq<Notice>) {
    var (app1, mem) := MemPart(app, s);
    var (app2, cpu) := CpuPart(app1, prevTotal, s);
    (app2, (if mem.Some? then [MemNotice(app.pid, mem.value)] else [])
           + (if cpu.Some? then [CpuNotice(app.pid, cpu.value)] else []))
  }

  /** One pass over a list of applications. */
  function PassResults(apps: seq<App>, prevTotal: nat, s: Sight): (results: seq<(App, seq<Notice>)>)
    ensures |results| == |apps|
    ensures forall i {:trigger results[i]} :: 0 <= i < |apps| ==> results[i] == AppPass(apps[i], prevTotal, s)
  {
    seq(|apps|, i requires 0 <= i < |apps| => AppPass(apps[i], prevTotal, s))
  }

  /** The notices sent, in order. */
  function Sent(results: seq<(App, seq<Notice>)>): seq<Notice> {
    if |results| == 0 then [] else Sent(results[..|results| - 1]) + results[|results| - 1].1
  }

  class AppConfig {
    const pid: nat
    const memoryThresholdMB: nat
    const cpuThresholdPercent: nat
    const cpuThresholdSeconds: nat
    var state: CpuState
    var cpuUsage: nat
    var cpuThreshold: real
    var memExceeded: nat
    var cpuExceededPercent: nat
    var eventSent: bool

    constructor (pid: nat, memoryThresholdMB: nat, cpuThresholdPercent: nat, cpuThresholdSeconds: nat)
      ensures View() ==
        App(pid, memoryThresholdMB, CpuLimits(cpuThresholdPercent, cpuThresholdSeconds), 0, 0, FRESH)
    {
      this.pid, this.memoryThresholdMB := pid, memoryThresholdMB;
      this.cpuThresholdPercent, this.cpuThresholdSeconds := cpuThresholdPercent, cpuThresholdSeconds;
      state, cpuUsage, cpuThreshold := Normal, 0, 0.0;
      memExceeded, cpuExceededPercent, eventSent := 0, 0, false;
    }

    ghost function View(): App
      reads this
    {
      App(pid, memoryThresholdMB, CpuLimits(cpuThresholdPercent, cpuThresholdSeconds), memExceeded, cpuUsage,
          CpuMachine(state, cpuThreshold, cpuExceededPercent, eventSent))
    }

    method CheckMemory(memoryUsed: nat) returns (event: Option<MemEvent>)
      modifies this
      ensures var (latch, ev) := MemStep(memoryThresholdMB, old(memExceeded), memoryUsed);
        View() == old(View()).(latch := latch) && event == ev
    {
      event := None;
      if memoryUsed >= memoryThresholdMB {
        if memExceeded == 0 {
          memExceeded := memoryUsed;
          event := Some(MemExceeded(memoryUsed));
        }
      } else if memExceeded != 0 && memoryUsed < memExceeded - memExceeded / 20 {
        memExceeded := 0;
        event := Some(MemReceded(memoryUsed));
      }
    }

    /** The CPU branch for one evaluated percentage. */
    method Evaluate(percents: nat, now: real) returns (event: Option<CpuEvent>)
      modifies this
      ensures var (machine, ev) := CpuStep(old(View()).limits, old(View()).machine, CpuSample(percents, now));
        View() == old(View()).(machine := machine) && event == ev
    {
      event := None;
      if percents >= cpuThresholdPercent {
        if state == Normal {
          state := Exceeded;
          cpuThreshold := now;
          cpuExceededPercent := percents;
          eventSent := false;
        } else if state == Exceeded {
          if now - cpuThreshold >= cpuThresholdSeconds as real && !eventSent {
            event := Some(CpuExceeded(percents));
            eventSent := true;
          }
        } else if state == Receded {
          state := Exceeded;
        }
      } else {
        if state == Exceeded {
          if !eventSent {
            state := Normal;
          } else if percents < cpuExceededPercent - cpuExceededPercent / 20 {
            state := Receded;
            cpuThreshold := now;
          }
        } else if state == Receded {
          if percents < cpuExceededPercent - cpuExceededPercent / 20 {
            if now - cpuThreshold >= cpuThresholdSeconds as real {
              event := Some(CpuReceded(percents));
              state := Normal;
            }
          } else {
            state := Exceeded;
          }
        }
      }
    }

    method CheckCpu(reported: nat, prevTotal: nat, total: nat, now: real) returns (event: Option<CpuEvent>)
      modifies this
      ensures (View(), event) == CpuCheck(old(View()), reported, prevTotal, total, now)
    {
      event := None;
      var usage := 0;
      if prevTotal != 0 {
        usage := reported;
        if cpuUsage != 0 {
          var percents := 0;
          if usage < cpuUsage {
          } else if total <= prevTotal {
          } else {
            percents := 100 * (usage - cpuUsage) / (total - prevTotal);
          }
          event := Evaluate(percents, now);
        }
      }
      cpuUsage := usage;
    }
  }

  /** The search by position: the entry at the first position that holds pid, 0 if there is none. */
  method Find(pids: seq<nat>, vals: seq<nat>, pid: nat) returns (v: nat)
    requires |pids| == |vals|
    ensures v == Groups.Lookup(pids, vals, pid)
  {
    v := 0;
    for n := 0 to |pids|
      invariant v == 0 && Groups.Lookup(pids, vals, pid) == Groups.Lookup(pids[n..], vals[n..], pid)
    {
      if pids[n] == pid {
        v := vals[n];
        return;
      }
      assert pids[n..][1..] == pids[n + 1..] && vals[n..][1..] == vals[n + 1..];
    }
  }

  /** Read by position from a report of h, the figure of pid is the one that belongs to pid. */
  lemma FindReadsFigure(h: Host, calcMem: bool, calcCpu: bool, r: ProcInfo.Report, fig: ProcInfo.Figure, pid: nat)
    requires Listing(h)
    requires if fig.Memory? then calcMem else calcCpu
    requires ProcInfo.Describes(ProcInfo.HostPlan(h).src, calcMem, calcCpu, ProcInfo.ReportRows(h), r)
    ensures |ProcInfo.FigureVector(fig, r)| == |r.pids|
    ensures Groups.Lookup(r.pids, ProcInfo.FigureVector(fig, r), pid) == FigureFor(h, fig, pid)
  {
    var i := Position(h, |h.procs|, pid);
    if i < |h.procs| && h.procs[i].pid == pid {
      ProcInfo.ReportReadsRightProcess(h, calcMem, calcCpu, r, fig, i);
    } else {
      forall j | 0 <= j < |h.procs| ensures h.procs[j].pid != pid {
        if h.procs[j].pid == pid {
          PositionFinds(h, |h.procs|, j);
        }
      }
      ProcInfo.UnknownPidReadsZero(h, calcMem, calcCpu, r, fig, pid);
    }
  }

  ghost predicate Finds(h: Host, fig: ProcInfo.Figure, pids: seq<nat>, vals: seq<nat>) {
    && |vals| == |pids|
    && forall pid: nat {:trigger Groups.Lookup(pids, vals, pid)} ::
         Groups.Lookup(pids, vals, pid) == FigureFor(h, fig, pid)
  }

  /** The requested vectors of r match the pid vector, and reading them by position finds the right figures. */
  ghost predicate Readable(s: Sight, r: ProcInfo.Report) {
    && (s.memCheck ==> Finds(s.host, ProcInfo.Memory, r.pids, r.mems))
    && (s.cpuCheck ==> Finds(s.host, ProcInfo.Cpu, r.pids, r.cpus))
  }

  lemma ReportIsReadable(s: Sight, r: ProcInfo.Report)
    requires Listing(s.host)
    requires s.memCheck || s.cpuCheck ==>
      ProcInfo.Describes(ProcInfo.HostPlan(s.host).src, s.memCheck, s.cpuCheck, ProcInfo.ReportRows(s.host), r)
    ensures Readable(s, r)
  {
    if s.memCheck {
      forall pid: nat
        ensures |r.mems| == |r.pids|
        ensures Groups.Lookup(r.pids, r.mems, pid) == FigureFor(s.host, ProcInfo.Memory, pid)
      {
        FindReadsFigure(s.host, s.memCheck, s.cpuCheck, r, ProcInfo.Memory, pid);
      }
    }
    if s.cpuCheck {
      forall pid: nat
        ensures |r.cpus| == |r.pids|
        ensures Groups.Lookup(r.pids, r.cpus, pid) == FigureFor(s.host, ProcInfo.Cpu, pid)
      {
        FindReadsFigure(s.host, s.memCheck, s.cpuCheck, r, ProcInfo.Cpu, pid);
      }
    }
  }

  class Monitor {
    var config: seq<AppConfig>
    var totalCpuUsage: nat
    var notices: seq<Notice>

    ghost predicate Valid()
      reads this
    {
      forall i, j :: 0 <= i < j < |config| ==> config[i] != config[j]
    }

    ghost function Apps(): (apps: seq<App>)
      reads this, config
      ensures |apps| == |config| && forall i :: 0 <= i < |apps| ==> apps[i] == config[i].View()
    {
      seq(|config|, i requires 0 <= i < |config| reads this, config => config[i].View())
    }

    /** One application's share of a pass. */
    method PassOne(app: AppConfig, r: ProcInfo.Report, s: Sight, ghost result: (App, seq<Notice>))
      requires Readable(s, r) && app in config
      requires result == AppPass(app.View(), totalCpuUsage, s)
      modifies app, this`notices
      ensures app.View() == result.0
      ensures notices == old(notices) + result.1
    {
      if s.memCheck {
        var memoryUsed := Find(r.pids, r.mems, app.pid);
        var event := app.CheckMemory(memoryUsed);
        if event.Some? {
          notices := notices + [MemNotice(app.pid, event.value)];
        }
      }
      if s.cpuCheck {
        var reported := Find(r.pids, r.cpus, app.pid);
        var event := app.CheckCpu(reported, totalCpuUsage, s.total, s.now);
        if event.Some? {
          notices := notices + [CpuNotice(app.pid, event.value)];
        }
      }
    }

    /** The loop over the applications. */
    method PassAll(r: ProcInfo.Report, s: Sight, ghost apps: seq<App>, ghost results: seq<(App, seq<Notice>)>)
      requires Valid() && Readable(s, r) && |config| == |apps| == |results|
      requires forall i :: 0 <= i < |config| ==> config[i].View() == apps[i]
      requires forall i {:trigger results[i]} :: 0 <= i < |apps| ==> results[i] == AppPass(apps[i], totalCpuUsage, s)
      modifies config, this`notices
      ensures forall i :: 0 <= i < |config| ==> config[i].View() == results[i].0
      ensures notices == old(notices) + Sent(results)
    {
      hide AppPass;
      for k := 0 to |config|
        invariant forall i :: 0 <= i < k ==> config[i].View() == results[i].0
        invariant forall i :: k <= i < |config| ==> config[i].View() == apps[i]
        invariant notices == old(notices) + Sent(results[..k])
      {
        PassOne(config[k], r, s, results[k]);
        assert results[..k + 1][..k] == results[..k];
      }
      assert results[..|config|] == results;
    }

    /** One iteration of the loop up to the sleep. */
    method Pass(s: Sight)
      requires Valid() && Listing(s.host)
      modifies config, this`totalCpuUsage, this`notices
      ensures Valid()
      ensures forall i :: 0 <= i < |config| ==>
        config[i].View() == AppPass(old(config[i].View()), old(totalCpuUsage), s).0
      ensures notices == old(notices) + Sent(PassResults(old(Apps()), old(totalCpuUsage), s))
      ensures totalCpuUsage == if s.cpuCheck then s.total else old(totalCpuUsage)
    {
      hide AppPass;
      var r := ProcInfo.GetProcInfo(s.host, s.memCheck, s.cpuCheck);
      ReportIsReadable(s, r);
      PassAll(r, s, Apps(), PassResults(Apps(), totalCpuUsage, s));
      if s.cpuCheck {
        totalCpuUsage := s.total;
      }
    }
  }
}
