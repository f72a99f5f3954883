/** When ActivityMonitor::monitoring checks and how long it sleeps.  Times are in seconds. */
module Pacing {

  datatype Intervals = Intervals(mem: real, cpu: real)

  /** The clock readings of one iteration, in the order the code takes them. */
  datatype Clock = Clock(memRead: real, cpuRead: real, memStamp: real, cpuStamp: real, memLeft: real, cpuLeft: real)

  /** Times of the last checks. */
  datatype Pace = Pace(lastMem: real, lastCpu: real)

  predicate Due(interval: real, elapsed: real) {
    interval > 0.0 && elapsed > interval - 0.01
  }

  predicate MemDue(iv: Intervals, p: Pace, c: Clock) {
    Due(iv.mem, c.memRead - p.lastMem)
  }

  predicate CpuDue(iv: Intervals, p: Pace, c: Clock) {
    Due(iv.cpu, c.cpuRead - p.lastCpu)
  }

  function Stamped(iv: Intervals, p: Pace, c: Clock): Pace {
    Pace(if MemDue(iv, p, c) then c.memStamp else p.lastMem, if CpuDue(iv, p, c) then c.cpuStamp else p.lastCpu)
  }

  /** The time to sleep after an iteration whose checks are stamped in p. */
  function SleepTime(iv: Intervals, p: Pace, c: Clock): real {
    var mem := if iv.mem > 0.0 then iv.mem - (c.memLeft - p.lastMem) else 10000.0;
    var cpu := iv.cpu - (c.cpuLeft - p.lastCpu);
    var sleep := if iv.cpu > 0.0 && cpu < mem then cpu else mem;
    if sleep < 0.01 then 0.01 else sleep
  }

  /** The wait is cut to whole milliseconds. */
  function SleepMillis(iv: Intervals, p: Pace, c: Clock): int {
    (SleepTime(iv, p, c) * 1000.0).Floor
  }

  predicate Ordered(c: Clock) {
    c.memRead <= c.cpuRead <= c.memStamp <= c.cpuStamp <= c.memLeft <= c.cpuLeft
  }

  function PaceAt(iv: Intervals, start: Pace, clocks: seq<Clock>, k: nat): Pace
    requires k <= |clocks|
  {
    if k == 0 then start
    else Stamped(iv, PaceAt(iv, start, clocks, k - 1), clocks[k - 1])
  }

  /** A run of iterations: the clock never goes back, and no wait returns early. */
  ghost predicate Schedule(iv: Intervals, start: Pace, clocks: seq<Clock>) {
    && (forall k :: 0 <= k < |clocks| ==> Ordered(clocks[k]))
    && (|clocks| > 0 ==> start.lastMem <= clocks[0].memRead && start.lastCpu <= clocks[0].memRead)
    && (forall k :: 0 < k < |clocks| ==>
          clocks[k].memRead >= clocks[k - 1].cpuLeft
                               + SleepMillis(iv, PaceAt(iv, start, clocks, k), clocks[k - 1]) as real / 1000.0)
  }

  predicate Works(iv: Intervals, start: Pace, clocks: seq<Clock>, k: nat)
    requires k < |clocks|
  {
    MemDue(iv, PaceAt(iv, start, clocks, k), clocks[k]) || CpuDue(iv, PaceAt(iv, start, clocks, k), clocks[k])
  }

  lemma SleepIsNearlyWhole(iv: Intervals, p: Pace, c: Clock)
    ensures SleepMillis(iv, p, c) as real / 1000.0 > SleepTime(iv, p, c) - 0.001
    ensures SleepMillis(iv, p, c) >= 10
  {
  }

  /** Checks never lie in the future of the readings that follow them. */
  lemma {:induction false} StampsArePast(iv: Intervals, start: Pace, clocks: seq<Clock>, k: nat)
    requires k < |clocks| && Schedule(iv, start, clocks)
    ensures var p := PaceAt(iv, start, clocks, k);
      p.lastMem <= clocks[k].memRead && p.lastCpu <= clocks[k].memRead
  {
    if k > 0 {
      StampsArePast(iv, start, clocks, k - 1);
      SleepIsNearlyWhole(iv, PaceAt(iv, start, clocks, k), clocks[k - 1]);
    }
  }

  /** After every completed wait at least one check is due, when memory checks are enabled or CPU checks are
      enabled at less than 10000.01 seconds: cutting the wait to milliseconds stays within the tolerance. */
  lemma EveryWakeWorks(iv: Intervals, start: Pace, clocks: seq<Clock>, k: nat)
    requires iv.mem > 0.0 || 0.0 < iv.cpu < 10000.01
    requires 0 < k < |clocks| && Schedule(iv, start, clocks)
    ensures Works(iv, start, clocks, k)
  {
    var p, c := PaceAt(iv, start, clocks, k), clocks[k - 1];
    StampsArePast(iv, start, clocks, k - 1);
    SleepIsNearlyWhole(iv, p, c);
    if iv.mem <= 0.0 && SleepTime(iv, p, c) == 10000.0 {
      assert 10000.0 * 1000.0 == 10000000.0;
      assert SleepMillis(iv, p, c) == 10000000;
    }
  }

  ghost predicate AlwaysWorks(iv: Intervals) {
    forall start: Pace, clocks: seq<Clock>, k: nat ::
      0 < k < |clocks| && Schedule(iv, start, clocks) ==> Works(iv, start, clocks, k)
  }

  /** That condition on the intervals is exact: with memory checks off and the CPU interval at 10000.01 seconds or
      more (or both off), a loop on an idle machine wakes up with nothing to do. */
  lemma WakeConditionExact(iv: Intervals)
    ensures AlwaysWorks(iv) <==> (iv.mem > 0.0 || 0.0 < iv.cpu < 10000.01)
  {
    if iv.mem > 0.0 || 0.0 < iv.cpu < 10000.01 {
      forall start: Pace, clocks: seq<Clock>, k: nat | 0 < k < |clocks| && Schedule(iv, start, clocks)
        ensures Works(iv, start, clocks, k)
      {
        EveryWakeWorks(iv, start, clocks, k);
      }
    } else {
      var start := Pace(0.0, 0.0);
      var first, second := Clock(0.0, 0.0, 0.0, 0.0, 0.0, 0.0), 10000.0;
      var clocks := [first, Clock(second, second, second, second, second, second)];
      assert !MemDue(iv, start, first) && !CpuDue(iv, start, first);
      assert PaceAt(iv, start, clocks, 0) == start;
      assert PaceAt(iv, start, clocks, 1) == start;
      assert SleepTime(iv, start, first) == 10000.0;
      assert SleepTime(iv, start, first) * 1000.0 == 10000000.0;
      assert Schedule(iv, start, clocks);
      assert !Works(iv, start, clocks, 1);
    }
  }

  /** No check of one kind between iterations j and k. */
  ghost predicate NoMemCheck(iv: Intervals, start: Pace, clocks: seq<Clock>, j: nat, k: nat)
    requires k <= |clocks|
  {
    forall i :: j < i < k ==> !MemDue(iv, PaceAt(iv, start, clocks, i), clocks[i])
  }

  lemma {:induction false} LastMemStays(iv: Intervals, start: Pace, clocks: seq<Clock>, j: nat, k: nat)
    requires j < k <= |clocks| && MemDue(iv, PaceAt(iv, start, clocks, j), clocks[j])
    requires NoMemCheck(iv, start, clocks, j, k)
    ensures PaceAt(iv, start, clocks, k).lastMem == clocks[j].memStamp
  {
    if j + 1 < k {
      LastMemStays(iv, start, clocks, j, k - 1);
    }
  }

  /** Consecutive memory checks are more than the interval less 0.01 seconds apart, however long the loop slept
      and whatever it did between them. */
  lemma MemChecksApart(iv: Intervals, start: Pace, clocks: seq<Clock>, j: nat, k: nat)
    requires j < k < |clocks| && NoMemCheck(iv, start, clocks, j, k)
    requires MemDue(iv, PaceAt(iv, start, clocks, j), clocks[j])
    requires MemDue(iv, PaceAt(iv, start, clocks, k), clocks[k])
    ensures clocks[k].memRead - clocks[j].memStamp > iv.mem - 0.01
  {
    LastMemStays(iv, start, clocks, j, k);
  }

  ghost predicate NoCpuCheck(iv: Intervals, start: Pace, clocks: seq<Clock>, j: nat, k: nat)
    requires k <= |clocks|
  {
    forall i :: j < i < k ==> !CpuDue(iv, PaceAt(iv, start, clocks, i), clocks[i])
  }

  lemma {:induction false} LastCpuStays(iv: Intervals, start: Pace, clocks: seq<Clock>, j: nat, k: nat)
    requires j < k <= |clocks| && CpuDue(iv, PaceAt(iv, start, clocks, j), clocks[j])
    requires NoCpuCheck(iv, start, clocks, j, k)
    ensures PaceAt(iv, start, clocks, k).lastCpu == clocks[j].cpuStamp
  {
    if j + 1 < k {
      LastCpuStays(iv, start, clocks, j, k - 1);
    }
  }

  /** And so are consecutive CPU checks. */
  lemma CpuChecksApart(iv: Intervals, start: Pace, clocks: seq<Clock>, j: nat, k: nat)
    requires j < k < |clocks| && NoCpuCheck(iv, start, clocks, j, k)
    requires CpuDue(iv, PaceAt(iv, start, clocks, j), clocks[j])
    requires CpuDue(iv, PaceAt(iv, start, clocks, k), clocks[k])
    ensures clocks[k].cpuRead - clocks[j].cpuStamp > iv.cpu - 0.01
  {
    LastCpuStays(iv, start, clocks, j, k);
  }

  // ------------------------------------------------------- no check comes late

  function Larger(a: real, b: real): real {
    if a < b then b else a
  }

  /** In a schedule, an iteration takes at most busy seconds and a wait ends at most late seconds after its time. */
  ghost predicate Punctual(iv: Intervals, start: Pace, clocks: seq<Clock>, busy: real, late: real) {
    && (forall k :: 0 <= k < |clocks| ==> clocks[k].cpuLeft <= clocks[k].memRead + busy)
    && (forall k :: 0 < k < |clocks| ==>
          clocks[k].memRead <= clocks[k - 1].cpuLeft
                               + SleepMillis(iv, PaceAt(iv, start, clocks, k), clocks[k - 1]) as real / 1000.0 + late)
  }

  /** The wait never runs past the time either enabled check is due, except for the 0.01 seconds it takes at least. */
  lemma SleepNeverOvershoots(iv: Intervals, p: Pace, c: Clock)
    ensures var slept := SleepMillis(iv, p, c) as real / 1000.0;
      && (iv.mem > 0.0 ==> slept <= Larger(iv.mem - (c.memLeft - p.lastMem), 0.01))
      && (iv.cpu > 0.0 ==> slept <= Larger(iv.cpu - (c.cpuLeft - p.lastCpu), 0.01))
      && slept <= Larger(if iv.mem > 0.0 then iv.mem - (c.memLeft - p.lastMem) else 10000.0, 0.01)
  {
    var ms := SleepTime(iv, p, c) * 1000.0;
    assert ms.Floor as real <= ms;
  }

  /** With memory checks enabled, at no wake-up has the last one been longer ago than the interval, the time of one
      iteration and the delay of one wait. */
  lemma {:induction false} MemNeverOverdue(iv: Intervals, start: Pace, clocks: seq<Clock>, busy: real, late: real,
                                           k: nat)
    requires iv.mem > 0.0 && k < |clocks| && Schedule(iv, start, clocks) && Punctual(iv, start, clocks, busy, late)
    requires 0.0 <= busy && 0.0 <= late && clocks[0].memRead - start.lastMem <= iv.mem
    ensures clocks[k].memRead - PaceAt(iv, start, clocks, k).lastMem <= Larger(iv.mem, 0.01) + busy + late
  {
    if k > 0 {
      var p, c := PaceAt(iv, start, clocks, k), clocks[k - 1];
      MemNeverOverdue(iv, start, clocks, busy, late, k - 1);
      SleepNeverOvershoots(iv, p, c);
      assert Ordered(c);
      hide SleepMillis;
    }
  }

  /** And likewise for CPU checks, which are read after the memory ones. */
  lemma {:induction false} CpuNeverOverdue(iv: Intervals, start: Pace, clocks: seq<Clock>, busy: real, late: real,
                                           k: nat)
    requires iv.cpu > 0.0 && k < |clocks| && Schedule(iv, start, clocks) && Punctual(iv, start, clocks, busy, late)
    requires 0.0 <= busy && 0.0 <= late && clocks[0].cpuRead - start.lastCpu <= iv.cpu
    ensures clocks[k].cpuRead - PaceAt(iv, start, clocks, k).lastCpu <= Larger(iv.cpu, 0.01) + 2.0 * busy + late
  {
    if k > 0 {
      var p, c := PaceAt(iv, start, clocks, k), clocks[k - 1];
      CpuNeverOverdue(iv, start, clocks, busy, late, k - 1);
      SleepNeverOvershoots(iv, p, c);
      assert Ordered(c) && Ordered(clocks[k]);
      hide SleepMillis;
    }
  }
}
