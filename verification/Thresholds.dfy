/** The two per-application hysteresis machines of ActivityMonitor::monitoring, as step functions on
    values, and what their event histories mean.  The class that runs them in place is
    MonitorLoop.AppConfig. */
module Thresholds {
  import opened Wrappers

  // ---------------------------------------------------------------- memory

  datatype MemEvent = MemExceeded(mb: nat) | MemReceded(mb: nat)

  /** One memory check.  latch is the field memExceeded: 0 when no episode is open, otherwise the figure
      that opened it. */
  function MemStep(threshold: nat, latch: nat, used: nat): (nat, Option<MemEvent>) {
    if used >= threshold then
      if latch == 0 then (used, Some(MemExceeded(used))) else (latch, None)
    else if latch != 0 && used < latch - latch / 20 then
      (0, Some(MemReceded(used)))
    else
      (latch, None)
  }

  /** The latch and the events after the checks in samples, starting from a fresh configuration. */
  function MemRun(threshold: nat, samples: seq<nat>): (nat, seq<MemEvent>) {
    if |samples| == 0 then
      (0, [])
    else
      var before := MemRun(threshold, samples[..|samples| - 1]);
      var step := MemStep(threshold, before.0, samples[|samples| - 1]);
      (step.0, if step.1.Some? then before.1 + [step.1.value] else before.1)
  }

  /** Does the history end with an exceeded event, that is, is an episode open? */
  predicate MemOpen(events: seq<MemEvent>) {
    |events| > 0 && events[|events| - 1].MemExceeded?
  }

  /** Events alternate exceeded, receded, exceeded, ... */
  predicate MemAlternates(events: seq<MemEvent>) {
    |events| == 0 ||
    (var before, last := events[..|events| - 1], events[|events| - 1];
     MemAlternates(before) && last.MemExceeded? != MemOpen(before))
  }

  /** The figure of an exceeded event that no receded event has followed yet, 0 if there is none. */
  function Unmatched(events: seq<MemEvent>): nat {
    if MemOpen(events) then events[|events| - 1].mb else 0
  }

  /** Exceeded figures reach the threshold; a receded figure is below it and strictly below 95 percent of the
      figure of the exceeded event it closes. */
  predicate MemFiguresRight(threshold: nat, events: seq<MemEvent>) {
    |events| == 0 ||
    (var before, last := events[..|events| - 1], events[|events| - 1];
     && MemFiguresRight(threshold, before)
     && match last
        case MemExceeded(m) => m >= threshold
        case MemReceded(u) => u < threshold && 20 * u < 19 * Unmatched(before))
  }

  /** The integer test u < m - m / 20 is exactly "strictly below 95 percent of m". */
  lemma Below95(u: nat, m: nat)
    ensures u < m - m / 20 <==> 20 * u < 19 * m
  {
  }

  /** What a latch and an event history mean together. */
  ghost predicate MemConsistent(threshold: nat, latch: nat, events: seq<MemEvent>) {
    && MemAlternates(events)
    && MemFiguresRight(threshold, events)
    && latch == Unmatched(events)
  }

  lemma MemStepConsistent(threshold: nat, latch: nat, events: seq<MemEvent>, used: nat)
    requires threshold > 0 && MemConsistent(threshold, latch, events)
    ensures var step := MemStep(threshold, latch, used);
      MemConsistent(threshold, step.0, if step.1.Some? then events + [step.1.value] else events)
  {
  }

  /** With a positive threshold, over every run: the events alternate starting with exceeded, the latch is
      the figure of the exceeded event that has not been matched yet (0 if there is none), and every figure
      reported is on the right side of its limit. */
  lemma {:induction false} MemRunMeaning(threshold: nat, samples: seq<nat>)
    requires threshold > 0
    ensures MemConsistent(threshold, MemRun(threshold, samples).0, MemRun(threshold, samples).1)
  {
    if |samples| > 0 {
      var before := MemRun(threshold, samples[..|samples| - 1]);
      MemRunMeaning(threshold, samples[..|samples| - 1]);
      MemStepConsistent(threshold, before.0, before.1, samples[|samples| - 1]);
    }
  }

  /** What the next check reports, in terms of the events so far alone. With no episode open: exceeded, exactly when
      the figure is at or above the threshold. With one open: receded, exactly when the figure is below the threshold
      and strictly below 95 percent of the figure that opened it. Otherwise nothing. */
  ghost predicate MemReports(threshold: nat, before: seq<MemEvent>, u: nat, after: seq<MemEvent>) {
    if !MemOpen(before) && u >= threshold then after == before + [MemExceeded(u)]
    else if MemOpen(before) && u < threshold && 20 * u < 19 * before[|before| - 1].mb then
      after == before + [MemReceded(u)]
    else after == before
  }

  /** An open episode's figure is positive, as the threshold is. */
  lemma NeverUnderThreshold(threshold: nat, samples: seq<nat>)
    requires threshold > 0
    ensures MemOpen(MemRun(threshold, samples).1) ==> MemRun(threshold, samples).0 >= threshold
  {
    MemRunMeaning(threshold, samples);
  }

  /** Over every run with a positive threshold each check reports that, no more and no less. */
  lemma MemRunReports(threshold: nat, samples: seq<nat>, u: nat)
    requires threshold > 0
    ensures MemReports(threshold, MemRun(threshold, samples).1, u, MemRun(threshold, samples + [u]).1)
  {
    MemRunMeaning(threshold, samples);
    Below95(u, MemRun(threshold, samples).0);
    assert (samples + [u])[..|samples|] == samples;
    NeverUnderThreshold(threshold, samples);
  }

  ghost predicate MemAlwaysAlternates(threshold: nat) {
    forall samples: seq<nat> :: MemAlternates(MemRun(threshold, samples).1)
  }

  /** Two checks of a figure of 0 against a threshold of 0 both report. */
  lemma ZeroRepeats()
    ensures !MemAlternates(MemRun(0, [0, 0]).1)
  {
    var none: seq<nat>, one: seq<nat>, two: seq<nat> := [], [0], [0, 0];
    assert one[..0] == none && two[..1] == one;
    assert MemRun(0, one) == (0, [] + [MemExceeded(0)]);
    var events := MemRun(0, two).1;
    assert events == [MemExceeded(0)] + [MemExceeded(0)];
    assert events[..1] == [MemExceeded(0)];
  }

  /** A threshold of zero leaves the latch at 0 when the figure is 0, so a second exceeded event follows the
      first: the events of all runs alternate exactly when the threshold is positive. */
  lemma MemAlternationCondition(threshold: nat)
    ensures MemAlwaysAlternates(threshold) <==> threshold > 0
  {
    if threshold > 0 {
      forall samples: seq<nat> ensures MemAlternates(MemRun(threshold, samples).1) {
        MemRunMeaning(threshold, samples);
      }
    } else {
      ZeroRepeats();
    }
  }

  // ---------------------------------------------------------------- CPU

  datatype CpuEvent = CpuExceeded(percent: nat) | CpuReceded(percent: nat)

  datatype CpuState = Normal | Exceeded | Receded

  datatype CpuLimits = CpuLimits(percent: nat, seconds: nat)

  /** The CPU fields of an application's configuration: state, cpuThreshold, cpuExceededPercent, eventSent. */
  datatype CpuMachine = CpuMachine(state: CpuState, since: real, captured: nat, sent: bool)

  /** One evaluated CPU sample: the percentage and the clock reading of the branch that uses the clock. */
  datatype CpuSample = CpuSample(percent: nat, now: real)

  predicate Under95(percent: nat, captured: nat) {
    percent < captured - captured / 20
  }

  function CpuStep(lim: CpuLimits, m: CpuMachine, s: CpuSample): (CpuMachine, Option<CpuEvent>) {
    if s.percent >= lim.percent then
      match m.state
      case Normal => (CpuMachine(Exceeded, s.now, s.percent, false), None)
      case Exceeded =>
        if s.now - m.since >= lim.seconds as real && !m.sent
        then (m.(sent := true), Some(CpuExceeded(s.percent)))
        else (m, None)
      case Receded => (m.(state := Exceeded), None)
    else
      match m.state
      case Normal => (m, None)
      case Exceeded =>
        if !m.sent then (m.(state := Normal), None)
        else if Under95(s.percent, m.captured) then (m.(state := Receded, since := s.now), None)
        else (m, None)
      case Receded =>
        if Under95(s.percent, m.captured) then
          if s.now - m.since >= lim.seconds as real
          then (m.(state := Normal), Some(CpuReceded(s.percent)))
          else (m, None)
        else (m.(state := Exceeded), None)
  }

  const FRESH := CpuMachine(Normal, 0.0, 0, false)

  /** The machine after the first k samples of a run. */
  function CpuAt(lim: CpuLimits, run: seq<CpuSample>, k: nat): CpuMachine
    requires k <= |run|
  {
    if k == 0 then FRESH else CpuStep(lim, CpuAt(lim, run, k - 1), run[k - 1]).0
  }

  /** The event the machine emits at sample k. */
  function CpuEventAt(lim: CpuLimits, run: seq<CpuSample>, k: nat): Option<CpuEvent>
    requires k < |run|
  {
    CpuStep(lim, CpuAt(lim, run, k), run[k]).1
  }

  // The reference reading of a run: no machine, only the samples and the earlier events.

  predicate High(lim: CpuLimits, run: seq<CpuSample>, i: nat)
    requires i < |run|
  {
    run[i].percent >= lim.percent
  }

  predicate Low(lim: CpuLimits, run: seq<CpuSample>, captured: nat, i: nat)
    requires i < |run|
  {
    run[i].percent < lim.percent && Under95(run[i].percent, captured)
  }

  /** Start of the unbroken streak of high samples that ends just before k (k when there is none). */
  function HighStart(lim: CpuLimits, run: seq<CpuSample>, k: nat): (e: nat)
    requires k <= |run|
    ensures e <= k
    ensures forall i :: e <= i < k ==> High(lim, run, i)
    ensures e == 0 || !High(lim, run, e - 1)
  {
    if k == 0 || !High(lim, run, k - 1) then k else HighStart(lim, run, k - 1)
  }

  /** Start of the unbroken streak of low samples that ends just before k (k when there is none). */
  function LowStart(lim: CpuLimits, run: seq<CpuSample>, captured: nat, k: nat): (j: nat)
    requires k <= |run|
    ensures j <= k
    ensures forall i :: j <= i < k ==> Low(lim, run, captured, i)
    ensures j == 0 || !Low(lim, run, captured, j - 1)
  {
    if k == 0 || !Low(lim, run, captured, k - 1) then k else LowStart(lim, run, captured, k - 1)
  }

  /** The sample of the exceeded event that is the latest event before k, if the latest one is exceeded. */
  function OpenSince(lim: CpuLimits, run: seq<CpuSample>, k: nat): (x: Option<nat>)
    requires k <= |run|
    ensures x.Some? ==> x.value < k
    decreases k, 1
  {
    if k == 0 then None
    else match Verdict(lim, run, k - 1)
      case Some(CpuExceeded(_)) => Some(k - 1)
      case Some(CpuReceded(_)) => None
      case None => OpenSince(lim, run, k - 1)
  }

  /** The percentage captured at the start of the streak that led to the exceeded event at x. */
  function Captured(lim: CpuLimits, run: seq<CpuSample>, x: nat): nat
    requires x < |run|
  {
    run[HighStart(lim, run, x)].percent
  }

  /** What should be reported at sample k.  With no open episode: exceeded, when sample k is high and belongs
      to a streak of high samples that began at an earlier sample, at least the configured time ago.  With an
      open episode: receded, when sample k is low (below the threshold and strictly below 95 percent of the
      captured percentage) and belongs to a streak of low samples that began at an earlier sample, at least
      the configured time ago. */
  function Verdict(lim: CpuLimits, run: seq<CpuSample>, k: nat): (v: Option<CpuEvent>)
    requires k < |run|
    decreases k, 2
  {
    match OpenSince(lim, run, k)
    case None =>
      var e := HighStart(lim, run, k);
      if e < k && High(lim, run, k) && run[k].now - run[e].now >= lim.seconds as real
      then Some(CpuExceeded(run[k].percent)) else None
    case Some(x) =>
      var captured := Captured(lim, run, x);
      var j := LowStart(lim, run, captured, k);
      if j < k && Low(lim, run, captured, k) && run[k].now - run[j].now >= lim.seconds as real
      then Some(CpuReceded(run[k].percent)) else None
  }

  /** What the machine's fields mean in terms of the samples seen so far. */
  ghost predicate Explained(lim: CpuLimits, run: seq<CpuSample>, k: nat)
    requires k <= |run|
  {
    var m := CpuAt(lim, run, k);
    match OpenSince(lim, run, k)
    case None =>
      var e := HighStart(lim, run, k);
      if e == k then m.state == Normal
      else m.state == Exceeded && !m.sent && m.since == run[e].now && m.captured == run[e].percent
    case Some(x) =>
      && m.sent
      && High(lim, run, x)
      && m.captured == Captured(lim, run, x)
      && var j := LowStart(lim, run, m.captured, k);
         if j == k then m.state == Exceeded
         else m.state == Receded && m.since == run[j].now
  }

  /** A low streak never reaches back over a high sample. */
  lemma {:induction false} LowStartAfterHigh(lim: CpuLimits, run: seq<CpuSample>, captured: nat, x: nat, k: nat)
    requires x < k <= |run| && High(lim, run, x)
    ensures x < LowStart(lim, run, captured, k)
  {
    if k - 1 > x {
      LowStartAfterHigh(lim, run, captured, x, k - 1);
    }
  }

  lemma {:induction false} ExplainedEvent(lim: CpuLimits, run: seq<CpuSample>, k: nat)
    requires k < |run| && Explained(lim, run, k)
    ensures CpuEventAt(lim, run, k) == Verdict(lim, run, k)
  {
  }

  lemma {:induction false} ExplainedStep(lim: CpuLimits, run: seq<CpuSample>, k: nat)
    requires k < |run|
    requires Explained(lim, run, k)
    requires CpuEventAt(lim, run, k) == Verdict(lim, run, k)
    ensures Explained(lim, run, k + 1)
  {
  }

  lemma {:induction false} ExplainedAlways(lim: CpuLimits, run: seq<CpuSample>, k: nat)
    requires k <= |run|
    ensures Explained(lim, run, k)
    decreases k
  {
    if k > 0 {
      ExplainedAlways(lim, run, k - 1);
      ExplainedEvent(lim, run, k - 1);
      ExplainedStep(lim, run, k - 1);
    }
  }

  /** The machine refines the reference reading: at every sample of every run it reports exactly what the
      history calls for. */
  lemma CpuMachineIsVerdict(lim: CpuLimits, run: seq<CpuSample>, k: nat)
    requires k < |run|
    ensures CpuEventAt(lim, run, k) == Verdict(lim, run, k)
  {
    ExplainedAlways(lim, run, k);
    ExplainedEvent(lim, run, k);
  }

  /** An unreported episode: the machine left NORMAL at sample e, and the samples from there to k are all at or above
      the threshold, span at least the configured seconds, and caused no event before k. */
  ghost predicate ExceededEpisode(lim: CpuLimits, run: seq<CpuSample>, e: nat, k: nat) {
    && e < k < |run|
    && CpuAt(lim, run, e).state == Normal && CpuAt(lim, run, e + 1).state == Exceeded
    && run[k].now - run[e].now >= lim.seconds as real
    && (forall i :: e <= i <= k ==> run[i].percent >= lim.percent)
    && (forall i :: e <= i < k ==> CpuEventAt(lim, run, i) == None)
  }

  /** No event falls inside a high streak that has not been reported yet. */
  lemma {:induction false} QuietInStreak(lim: CpuLimits, run: seq<CpuSample>, e: nat, i: nat, k: nat)
    requires e <= i < k < |run| && OpenSince(lim, run, k) == None
    requires forall n :: e <= n < k ==> High(lim, run, n)
    ensures Verdict(lim, run, i) == None && OpenSince(lim, run, i) == None
    decreases k - i
  {
    if i + 1 < k {
      QuietInStreak(lim, run, e, i + 1, k);
    }
    assert High(lim, run, i);
  }

  /** What the machine remembers of an unreported episode. */
  lemma {:induction false} EpisodeHeld(lim: CpuLimits, run: seq<CpuSample>, e: nat, i: nat)
    requires e < i <= |run| && CpuAt(lim, run, e).state == Normal
    requires forall n :: e <= n < i ==> run[n].percent >= lim.percent && CpuEventAt(lim, run, n) == None
    ensures CpuAt(lim, run, i) == CpuMachine(Exceeded, run[e].now, run[e].percent, false)
  {
    if e + 1 < i {
      EpisodeHeld(lim, run, e, i - 1);
    }
  }

  /** Where a reported streak of high samples starts, the machine left NORMAL. */
  lemma StreakLeavesNormal(lim: CpuLimits, run: seq<CpuSample>, k: nat)
    requires k < |run| && OpenSince(lim, run, k) == None && HighStart(lim, run, k) < k
    ensures var e := HighStart(lim, run, k);
      CpuAt(lim, run, e).state == Normal && CpuAt(lim, run, e + 1).state == Exceeded
  {
    var e := HighStart(lim, run, k);
    QuietInStreak(lim, run, e, e, k);
    ExplainedAlways(lim, run, e);
    assert HighStart(lim, run, e) == e && High(lim, run, e);
  }

  lemma ExceededHasEpisode(lim: CpuLimits, run: seq<CpuSample>, k: nat)
    requires k < |run| && CpuEventAt(lim, run, k) == Some(CpuExceeded(run[k].percent))
    ensures OpenSince(lim, run, k) == None && ExceededEpisode(lim, run, HighStart(lim, run, k), k)
  {
    CpuMachineIsVerdict(lim, run, k);
    var e := HighStart(lim, run, k);
    StreakLeavesNormal(lim, run, k);
    forall i | e <= i < k ensures CpuEventAt(lim, run, i) == None {
      CpuMachineIsVerdict(lim, run, i);
      QuietInStreak(lim, run, e, i, k);
    }
    forall i | e <= i <= k ensures run[i].percent >= lim.percent {
      assert High(lim, run, i);
    }
  }

  /** An exceeded event at k: every sample since the episode began was at or above the threshold, for at least the
      configured seconds; and such an episode is always reported. */
  lemma CpuExceededMeans(lim: CpuLimits, run: seq<CpuSample>, k: nat)
    requires k < |run|
    ensures CpuEventAt(lim, run, k) == Some(CpuExceeded(run[k].percent)) <==>
      exists e: nat :: ExceededEpisode(lim, run, e, k)
  {
    if CpuEventAt(lim, run, k) == Some(CpuExceeded(run[k].percent)) {
      ExceededHasEpisode(lim, run, k);
    }
    if e: nat :| ExceededEpisode(lim, run, e, k) {
      EpisodeHeld(lim, run, e, k);
    }
  }

  /** A reported episode that has ended: it began at e, was reported at x, nothing was reported since, the machine
      entered RECEDED at j, and the samples from there to k are all below the threshold and strictly below 95 percent of
      the percentage captured at e, and span at least the configured seconds. */
  ghost predicate RecededEpisode(lim: CpuLimits, run: seq<CpuSample>, e: nat, x: nat, j: nat, k: nat) {
    && e < x < j < k < |run|
    && ExceededEpisode(lim, run, e, x)
    && CpuEventAt(lim, run, x) == Some(CpuExceeded(run[x].percent))
    && (forall i :: x < i < k ==> CpuEventAt(lim, run, i) == None)
    && CpuAt(lim, run, j).state == Exceeded && CpuAt(lim, run, j + 1).state == Receded
    && CpuAt(lim, run, j).captured == run[e].percent
    && run[k].now - run[j].now >= lim.seconds as real
    && (forall i :: j <= i <= k ==> run[i].percent < lim.percent && 20 * run[i].percent < 19 * run[e].percent)
  }

  /** What the machine remembers while RECEDED. */
  lemma {:induction false} RecededHeld(lim: CpuLimits, run: seq<CpuSample>, j: nat, i: nat)
    requires j < i <= |run| && CpuAt(lim, run, j).state == Exceeded && CpuAt(lim, run, j + 1).state == Receded
    requires forall n :: j <= n < i ==> Low(lim, run, CpuAt(lim, run, j).captured, n) && CpuEventAt(lim, run, n) == None
    ensures CpuAt(lim, run, i) == CpuAt(lim, run, j).(state := Receded, since := run[j].now)
  {
    if j + 1 < i {
      RecededHeld(lim, run, j, i - 1);
      assert Low(lim, run, CpuAt(lim, run, j).captured, i - 1);
    }
  }

  lemma EpisodeRecedes(lim: CpuLimits, run: seq<CpuSample>, e: nat, x: nat, j: nat, k: nat)
    requires RecededEpisode(lim, run, e, x, j, k)
    ensures CpuEventAt(lim, run, k) == Some(CpuReceded(run[k].percent))
  {
    forall n | j <= n <= k ensures Low(lim, run, run[e].percent, n) {
      Below95(run[n].percent, run[e].percent);
    }
    RecededHeld(lim, run, j, k);
    assert Low(lim, run, run[e].percent, k);
  }

  /** Nothing is reported after the event that opened the episode. */
  lemma {:induction false} QuietSinceOpen(lim: CpuLimits, run: seq<CpuSample>, i: nat, k: nat)
    requires k <= |run| && OpenSince(lim, run, k).Some? && OpenSince(lim, run, k).value < i <= k
    ensures OpenSince(lim, run, i) == OpenSince(lim, run, k)
    ensures i < k ==> Verdict(lim, run, i) == None
    decreases k - i
  {
    if i < k {
      QuietSinceOpen(lim, run, i + 1, k);
    }
  }

  /** Where the low streak of an open episode starts, the machine entered RECEDED. */
  lemma EntersReceded(lim: CpuLimits, run: seq<CpuSample>, k: nat, x: nat, j: nat)
    requires k <= |run| && OpenSince(lim, run, k) == Some(x)
    requires x < j == LowStart(lim, run, Captured(lim, run, x), k) < k
    ensures CpuAt(lim, run, j).state == Exceeded && CpuAt(lim, run, j + 1).state == Receded
    ensures CpuAt(lim, run, j).captured == Captured(lim, run, x)
  {
    QuietSinceOpen(lim, run, j, k);
    QuietSinceOpen(lim, run, j + 1, k);
    ExplainedAlways(lim, run, j);
    ExplainedAlways(lim, run, j + 1);
    assert Low(lim, run, Captured(lim, run, x), j);
  }

  lemma {:induction false} OpenSinceIsExceeded(lim: CpuLimits, run: seq<CpuSample>, k: nat)
    requires k <= |run| && OpenSince(lim, run, k).Some?
    ensures var x := OpenSince(lim, run, k).value;
      Verdict(lim, run, x) == Some(CpuExceeded(run[x].percent)) && High(lim, run, x) &&
      HighStart(lim, run, x) < x
    decreases k
  {
    if Verdict(lim, run, k - 1) == None {
      OpenSinceIsExceeded(lim, run, k - 1);
    }
  }

  lemma RecededHasEpisode(lim: CpuLimits, run: seq<CpuSample>, k: nat)
    requires k < |run| && CpuEventAt(lim, run, k) == Some(CpuReceded(run[k].percent))
    ensures exists e: nat, x: nat, j: nat :: RecededEpisode(lim, run, e, x, j, k)
  {
    CpuMachineIsVerdict(lim, run, k);
    var x := OpenSince(lim, run, k).value;
    var e := HighStart(lim, run, x);
    var captured := Captured(lim, run, x);
    var j := LowStart(lim, run, captured, k);
    OpenSinceIsExceeded(lim, run, k);
    CpuMachineIsVerdict(lim, run, x);
    ExceededHasEpisode(lim, run, x);
    LowStartAfterHigh(lim, run, captured, x, k);
    EntersReceded(lim, run, k, x, j);
    forall i | x < i < k ensures CpuEventAt(lim, run, i) == None {
      QuietSinceOpen(lim, run, i, k);
      CpuMachineIsVerdict(lim, run, i);
    }
    forall i | j <= i <= k ensures run[i].percent < lim.percent && 20 * run[i].percent < 19 * run[e].percent {
      assert Low(lim, run, captured, i);
      Below95(run[i].percent, captured);
    }
    assert RecededEpisode(lim, run, e, x, j, k);
  }

  /** A receded event at k closes such an episode, and such an episode is always closed. */
  lemma CpuRecededMeans(lim: CpuLimits, run: seq<CpuSample>, k: nat)
    requires k < |run|
    ensures CpuEventAt(lim, run, k) == Some(CpuReceded(run[k].percent)) <==>
      exists e: nat, x: nat, j: nat :: RecededEpisode(lim, run, e, x, j, k)
  {
    hide RecededEpisode;
    if CpuEventAt(lim, run, k) == Some(CpuReceded(run[k].percent)) {
      RecededHasEpisode(lim, run, k);
    }
    if e: nat, x: nat, j: nat :| RecededEpisode(lim, run, e, x, j, k) {
      EpisodeRecedes(lim, run, e, x, j, k);
    }
  }

  predicate CpuOpen(events: seq<CpuEvent>) {
    |events| > 0 && events[|events| - 1].CpuExceeded?
  }

  /** Events alternate exceeded, receded, exceeded, ... */
  predicate CpuAlternates(events: seq<CpuEvent>) {
    |events| == 0 ||
    (var before, last := events[..|events| - 1], events[|events| - 1];
     CpuAlternates(before) && last.CpuExceeded? != CpuOpen(before))
  }

  /** The events of the first k samples, in order. */
  function CpuEvents(lim: CpuLimits, run: seq<CpuSample>, k: nat): seq<CpuEvent>
    requires k <= |run|
  {
    if k == 0 then []
    else
      var before := CpuEvents(lim, run, k - 1);
      match CpuEventAt(lim, run, k - 1)
      case None => before
      case Some(ev) => before + [ev]
  }

  /** Only an open episode can recede and only a closed one can be exceeded. */
  lemma VerdictFits(lim: CpuLimits, run: seq<CpuSample>, k: nat)
    requires k < |run|
    ensures match Verdict(lim, run, k)
      case None => OpenSince(lim, run, k + 1).Some? == OpenSince(lim, run, k).Some?
      case Some(ev) => ev.CpuExceeded? == OpenSince(lim, run, k + 1).Some? == OpenSince(lim, run, k).None?
  {
  }

  /** Over every run the CPU events strictly alternate, starting with exceeded. */
  lemma {:induction false} CpuEventsAlternate(lim: CpuLimits, run: seq<CpuSample>, k: nat)
    requires k <= |run|
    ensures CpuAlternates(CpuEvents(lim, run, k))
    ensures CpuOpen(CpuEvents(lim, run, k)) == OpenSince(lim, run, k).Some?
  {
    if k > 0 {
      CpuEventsAlternate(lim, run, k - 1);
      CpuMachineIsVerdict(lim, run, k - 1);
      VerdictFits(lim, run, k - 1);
      var before := CpuEvents(lim, run, k - 1);
      assert CpuEventAt(lim, run, k - 1).Some? ==> CpuEvents(lim, run, k)[..|before|] == before;
    }
  }
}
