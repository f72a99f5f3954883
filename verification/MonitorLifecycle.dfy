/** enableMonitoring, disableMonitoring, threadStop and the monitor thread as interleaved steps.  Requests are
    served one at a time; the thread's steps fall anywhere between theirs. */
module MonitorLifecycle {
  import opened Wrappers

  /** What a request carries: the length of the config array, whether both intervals are 0, and how many entries
      have a usable pid. */
  datatype Request = Enable(arrayLen: nat, noIntervals: bool, valid: nat) | Disable

  /** Where the serving thread stands.  StopHeld to StopNotified hold the monitoring mutex. */
  datatype Api =
    | Idle
    | Asked(req: Request)
    | StopHeld(req: Request)
    | StopSet(req: Request)
    | StopNotified(req: Request)
    | Joining(req: Request)
    | Stopped(req: Request)
    | Deleted(req: Request)
    | Rebuilt(req: Request)
    | Rearmed(req: Request)

  /** Where a monitor thread stands.  signalled: a notification has reached its wait. */
  datatype Pc = Start | Body | AtWait | Waiting(signalled: bool) | Woken(timedOut: bool) | Exited

  datatype Thread = Thread(pc: Pc, block: nat)

  /** heap maps each allocated parameter block to the length of its config list; params is m_monitorParams, which may
      point to a deleted block; handle is m_monitor, which is joinable when it names a thread. */
  datatype State = State(api: Api, params: Option<nat>, heap: map<nat, nat>, nextBlock: nat,
                         handle: Option<nat>, threads: map<nat, Thread>, stop: bool)

  const INIT := State(Idle, None, map[], 0, None, map[], false)

  predicate MutexHeld(a: Api) {
    a.StopHeld? || a.StopSet? || a.StopNotified?
  }

  predicate Running(s: State, t: nat) {
    t in s.threads && !s.threads[t].pc.Exited?
  }

  function Delete(heap: map<nat, nat>, p: Option<nat>): map<nat, nat> {
    match p
    case None => heap
    case Some(b) => heap - {b}
  }

  predicate IsWaiting(s: State, t: nat) {
    t in s.threads && s.threads[t].pc.Waiting?
  }

  function MoveThread(s: State, t: nat, pc: Pc): State
    requires t in s.threads
  {
    s.(threads := s.threads[t := s.threads[t].(pc := pc)])
  }

  /** notify_one reaches a waiting thread, if there is one. */
  ghost predicate Notify(s: State, s': State)
    requires s.api.StopSet?
  {
    var after := s.(api := StopNotified(s.api.req));
    if exists t: nat :: IsWaiting(s, t) then
      exists t: nat :: IsWaiting(s, t) && s' == MoveThread(after, t, Waiting(true))
    else s' == after
  }

  predicate Spawned(s: State, t: nat, s': State) {
    && s.params.Some?
    && s' == s.(threads := s.threads[t := Thread(Start, s.params.value)], handle := Some(t), api := Idle)
  }

  /** One step of the serving thread. */
  ghost predicate ApiStep(s: State, s': State) {
    match s.api
    case Idle => exists req :: s' == s.(api := Asked(req))
    case Asked(req) =>
      if s.handle == None then s' == s.(api := Stopped(req))
      else s' == s.(api := StopHeld(req))
    case StopHeld(req) => s' == s.(stop := true, api := StopSet(req))
    case StopSet(req) => Notify(s, s')
    case StopNotified(req) => s' == s.(api := Joining(req))
    case Joining(req) =>
      s.handle.Some? && s.handle.value in s.threads && s.threads[s.handle.value].pc.Exited? &&
      s' == s.(handle := None, api := Stopped(req))
    case Stopped(req) =>
      if req.Disable? then s' == s.(heap := Delete(s.heap, s.params), params := None, api := Idle)
      else if req.arrayLen == 0 || req.noIntervals then s' == s.(api := Idle)
      else s' == s.(heap := Delete(s.heap, s.params), api := Deleted(req))
    case Deleted(req) =>
      var entries := if req.Enable? then req.valid else 0;
      s' == s.(params := Some(s.nextBlock), heap := s.heap[s.nextBlock := entries],
               nextBlock := s.nextBlock + 1, api := Rebuilt(req))
    case Rebuilt(req) => s' == s.(stop := false, api := Rearmed(req))
    case Rearmed(req) =>
      if s.params.Some? && s.params.value in s.heap && s.heap[s.params.value] == 0 then s' == s.(api := Idle)
      else exists t: nat :: t !in s.threads && Spawned(s, t, s')
  }

  /** The config list as the thread reads it through m_monitorParams; None when the pointer is not valid. */
  function ConfigSeen(s: State): Option<nat> {
    if s.params.Some? && s.params.value in s.heap then Some(s.heap[s.params.value]) else None
  }

  /** Where thread t may go next.  A wait ends by notification, by timeout, or spuriously. */
  ghost predicate Next(s: State, pc: Pc, pc': Pc) {
    match pc
    case Start => pc' == if ConfigSeen(s) == Some(0) then Exited else Body
    case Body => pc' == AtWait
    case AtWait => !MutexHeld(s.api) && pc' == if s.stop then Exited else Waiting(false)
    case Waiting(_) => pc'.Woken?
    case Woken(timedOut) =>
      !MutexHeld(s.api) &&
      pc' == if s.stop then Exited else if timedOut then Body else Waiting(false)
    case Exited => false
  }

  ghost predicate ThreadStep(s: State, t: nat, s': State) {
    && t in s.threads && t in s'.threads
    && Next(s, s.threads[t].pc, s'.threads[t].pc)
    && s' == MoveThread(s, t, s'.threads[t].pc)
  }

  ghost predicate Step(s: State, s': State) {
    ApiStep(s, s') || exists t: nat :: ThreadStep(s, t, s')
  }

  // ------------------------------------------------------- what every step keeps

  predicate StopPending(a: Api) {
    a.StopSet? || a.StopNotified? || a.Joining?
  }

  /** A running thread is the one the handle names and works on the current, allocated, non-empty block.  It sees the
      stop flag only while a request wants it gone, and then its wait is notified. */
  predicate RunningWell(s: State, t: nat)
    requires t in s.threads
  {
    && s.handle == Some(t)
    && s.params == Some(s.threads[t].block)
    && s.threads[t].block in s.heap && s.heap[s.threads[t].block] > 0
    && (s.stop ==> StopPending(s.api))
    && (s.api.StopNotified? || s.api.Joining? ==> s.threads[t].pc.Waiting? ==> s.threads[t].pc.signalled)
  }

  predicate Usable(req: Request) {
    req.Enable? && req.arrayLen != 0 && !req.noIntervals
  }

  ghost predicate Inv(s: State) {
    && (forall t: nat :: Running(s, t) ==> RunningWell(s, t))
    && (s.handle.Some? ==> s.handle.value in s.threads)
    // only a request that finished threadStop touches the block
    && (s.api.Stopped? || s.api.Deleted? || s.api.Rebuilt? || s.api.Rearmed? ==> s.handle == None)
    && (s.api.StopHeld? || StopPending(s.api) ==> s.handle.Some?)
    && (StopPending(s.api) ==> s.stop)
    && (s.api.Rearmed? ==> !s.stop)
    // the pointer dangles only between delete and new
    && (s.params.Some? && !s.api.Deleted? ==> s.params.value in s.heap)
    && (s.api.Rebuilt? || s.api.Rearmed? ==> s.params.Some?)
    // a request gets that far only if it asks for something, and then with the entries it asks for
    && (s.api.Deleted? || s.api.Rebuilt? || s.api.Rearmed? ==> Usable(s.api.req))
    && (s.api.Rebuilt? || s.api.Rearmed? ==> s.heap[s.params.value] == s.api.req.valid)
  }

  lemma InitInv()
    ensures Inv(INIT)
  {
  }

  lemma NotifyKeepsInv(s: State, s': State)
    requires Inv(s) && s.api.StopSet? && Notify(s, s')
    ensures Inv(s')
  {
    forall t: nat | Running(s', t) ensures RunningWell(s', t) {
      assert Running(s, t);
      if IsWaiting(s, t) {
        var after := s.(api := StopNotified(s.api.req));
        var u: nat :| IsWaiting(s, u) && s' == MoveThread(after, u, Waiting(true));
        assert Running(s, u);
      }
    }
  }

  lemma SpawnKeepsInv(s: State, s': State, t: nat)
    requires Inv(s) && s.api.Rearmed? && t !in s.threads && Spawned(s, t, s')
    requires s.heap[s.params.value] > 0
    ensures Inv(s')
  {
    forall u: nat | Running(s', u) ensures RunningWell(s', u) {
      if u != t {
        assert Running(s, u);
      }
    }
  }

  lemma ApiStepKeepsInv(s: State, s': State)
    requires Inv(s) && ApiStep(s, s')
    ensures Inv(s')
  {
    if s.api.StopSet? {
      NotifyKeepsInv(s, s');
    } else if s.api.Rearmed? && s'.threads != s.threads {
      var t: nat :| t !in s.threads && Spawned(s, t, s');
      SpawnKeepsInv(s, s', t);
    } else {
      forall t: nat | Running(s', t) ensures RunningWell(s', t) {
        assert Running(s, t) && RunningWell(s, t);
      }
    }
  }

  lemma ThreadStepKeepsInv(s: State, t: nat, s': State)
    requires Inv(s) && ThreadStep(s, t, s')
    ensures Inv(s')
  {
    assert Running(s, t);
    forall u: nat | Running(s', u) ensures RunningWell(s', u) {
      assert Running(s, u);
    }
  }

  lemma StepKeepsInv(s: State, s': State)
    requires Inv(s) && Step(s, s')
    ensures Inv(s')
  {
    if ApiStep(s, s') {
      ApiStepKeepsInv(s, s');
    } else {
      var t: nat :| ThreadStep(s, t, s');
      ThreadStepKeepsInv(s, t, s');
    }
  }

  // ------------------------------------------------------- whole runs

  ghost predicate Run(run: seq<State>) {
    |run| > 0 && run[0] == INIT && forall i :: 0 < i < |run| ==> Step(run[i - 1], run[i])
  }

  lemma {:induction false} RunInv(run: seq<State>, k: nat)
    requires Run(run) && k < |run|
    ensures Inv(run[k])
  {
    if k == 0 {
      InitInv();
    } else {
      RunInv(run, k - 1);
      StepKeepsInv(run[k - 1], run[k]);
    }
  }

  /** In every interleaving, at every point: at most one monitor runs; the block it was started with is still the
      current one, allocated, with a non-empty config, so it never reads through a bad pointer; and a new monitor is
      never assigned over a joinable handle. */
  lemma MonitorSafety(run: seq<State>, k: nat)
    requires Run(run) && k < |run|
    ensures var s := run[k];
      && (forall t: nat, u: nat :: Running(s, t) && Running(s, u) ==> t == u)
      && (forall t: nat :: Running(s, t) ==>
            s.params == Some(s.threads[t].block) && ConfigSeen(s).Some? && ConfigSeen(s).value > 0)
      && (s.api.Rearmed? ==> s.handle == None)
  {
    RunInv(run, k);
    var s := run[k];
    forall t: nat, u: nat | Running(s, t) && Running(s, u) ensures t == u {
      assert RunningWell(s, t) && RunningWell(s, u);
    }
  }

  /** The block of a running thread does not change while it runs, and a deleted block was an allocated one. */
  lemma NoDoubleDelete(run: seq<State>, k: nat)
    requires Run(run) && k + 1 < |run|
    ensures var s, s' := run[k], run[k + 1];
      && (s.api.Stopped? && s.params.Some? ==> s.params.value in s.heap)
      && (forall t: nat :: Running(s, t) && Running(s', t) ==> s'.params == s.params && s'.heap == s.heap)
  {
    RunInv(run, k);
    var s, s' := run[k], run[k + 1];
    assert Step(s, s');
    forall t: nat | Running(s, t) && Running(s', t) ensures s'.params == s.params && s'.heap == s.heap {
      assert RunningWell(s, t);
    }
  }

  // ------------------------------------------------------- a stop request is never lost

  /** Steps thread pc still has to take before it is gone, once a stop is being joined. */
  function Remaining(pc: Pc): nat {
    match pc
    case Start => 4
    case Body => 3
    case AtWait => 2
    case Waiting(_) => 2
    case Woken(_) => 1
    case Exited => 0
  }

  lemma JoinedThreadCanStep(s: State, pc: Pc)
    requires s.api.Joining? && !pc.Exited?
    ensures exists pc' :: Next(s, pc, pc')
  {
    var pc' := match pc
      case Start => if ConfigSeen(s) == Some(0) then Exited else Body
      case Body => AtWait
      case AtWait => if s.stop then Exited else Waiting(false)
      case Waiting(_) => Woken(false)
      case Woken(timedOut) => if s.stop then Exited else if timedOut then Body else Waiting(false);
    assert Next(s, pc, pc');
  }

  lemma OnlyTheJoinedThreadSteps(s: State, s': State)
    requires Inv(s) && s.api.Joining? && !s.threads[s.handle.value].pc.Exited? && Step(s, s')
    ensures s'.api == s.api && s'.handle == s.handle && s'.stop && s.handle.value in s'.threads
    ensures Remaining(s'.threads[s.handle.value].pc) < Remaining(s.threads[s.handle.value].pc)
  {
    var u: nat :| ThreadStep(s, u, s');
    assert Running(s, u) && RunningWell(s, u);
  }

  /** While a request joins a monitor: the stop flag is up; the thread can always step, and a wait is already
      notified, so it does not depend on a timeout; every step of the thread brings it nearer its exit; no other
      step is possible until then; and when it has exited the join completes. */
  lemma StopNeverLost(run: seq<State>, k: nat)
    requires Run(run) && k < |run| && run[k].api.Joining?
    ensures var s := run[k];
      && s.stop && s.handle.Some? && s.handle.value in s.threads
      && (var pc := s.threads[s.handle.value].pc;
          if pc.Exited? then ApiStep(s, s.(handle := None, api := Stopped(s.api.req)))
          else
            && (exists pc' :: Next(s, pc, pc'))
            && (pc.Waiting? ==> pc.signalled)
            && (forall s' :: Step(s, s') ==>
                  && s'.api == s.api && s'.handle == s.handle && s'.stop
                  && s.handle.value in s'.threads
                  && Remaining(s'.threads[s.handle.value].pc) < Remaining(pc)))
  {
    RunInv(run, k);
    var s := run[k];
    var t := s.handle.value;
    var pc := s.threads[t].pc;
    if !pc.Exited? {
      assert Running(s, t);
      JoinedThreadCanStep(s, pc);
      forall s' | Step(s, s')
        ensures s'.api == s.api && s'.handle == s.handle && s'.stop && t in s'.threads
        ensures Remaining(s'.threads[t].pc) < Remaining(pc)
      {
        OnlyTheJoinedThreadSteps(s, s');
      }
    }
  }

  // ------------------------------------------------------- every request does what it asks for

  /** Monitor t has just been started on a block with that many entries. */
  predicate StartedOn(s: State, t: nat, entries: nat) {
    && Running(s, t) && s.threads[t].pc.Start? && s.handle == Some(t) && !s.stop
    && s.params == Some(s.threads[t].block) && s.threads[t].block in s.heap && s.heap[s.threads[t].block] == entries
  }

  /** With no handle there is no monitor. */
  lemma NoneRunning(s: State)
    requires Inv(s) && s.handle == None
    ensures forall t: nat :: !Running(s, t)
  {
  }

  lemma EndingStep(s: State, s': State)
    requires Inv(s) && Inv(s') && Step(s, s') && !s.api.Idle? && s'.api.Idle?
    ensures var req := s.api.req;
      && (if req.Enable? && req.arrayLen != 0 && !req.noIntervals && req.valid > 0
          then exists t: nat :: StartedOn(s', t, req.valid)
          else forall t: nat :: !Running(s', t))
      && (req.Disable? ==> s'.params == None)
  {
    assert ApiStep(s, s');
    if s.api.Rearmed? && s.heap[s.params.value] != 0 {
      var t: nat :| t !in s.threads && Spawned(s, t, s');
      assert StartedOn(s', t, s.api.req.valid);
    } else {
      assert s.api.Stopped? || s.api.Rearmed?;
      NoneRunning(s);
      assert s'.threads == s.threads;
    }
  }

  /** A request that enables monitoring with at least one usable entry ends with a monitor started on just these
      entries; every other request ends with none running, and a disabling one without a parameter block. */
  lemma RequestEnds(run: seq<State>, k: nat)
    requires Run(run) && k + 1 < |run| && !run[k].api.Idle? && run[k + 1].api.Idle?
    ensures var req, s' := run[k].api.req, run[k + 1];
      && (if req.Enable? && req.arrayLen != 0 && !req.noIntervals && req.valid > 0
          then exists t: nat :: StartedOn(s', t, req.valid)
          else forall t: nat :: !Running(s', t))
      && (req.Disable? ==> s'.params == None)
  {
    RunInv(run, k);
    RunInv(run, k + 1);
    var s, s' := run[k], run[k + 1];
    assert Step(s, s');
    EndingStep(s, s');
  }

  /** Steps a request still has to take. */
  function Left(a: Api): nat {
    match a
    case Idle => 0
    case Rearmed(_) => 1
    case Rebuilt(_) => 2
    case Deleted(_) => 3
    case Stopped(_) => 4
    case Joining(_) => 5
    case StopNotified(_) => 6
    case StopSet(_) => 7
    case StopHeld(_) => 8
    case Asked(_) => 9
  }

  lemma {:induction false} Above(ts: set<nat>) returns (t: nat)
    ensures forall x :: x in ts ==> x < t
    decreases |ts|
  {
    if ts == {} {
      t := 0;
    } else {
      var x :| x in ts;
      var u := Above(ts - {x});
      t := if x < u then u else x + 1;
      forall y | y in ts ensures y < t {
        assert y == x || y in ts - {x};
      }
    }
  }

  lemma ApiStepAdvances(s: State, s': State)
    requires ApiStep(s, s') && !s.api.Idle?
    ensures Left(s'.api) < Left(s.api) && (s'.api.Idle? || s'.api.req == s.api.req)
  {
  }

  lemma NextApiStep(s: State) returns (s': State)
    requires Inv(s) && !s.api.Idle? && !s.api.Joining?
    ensures ApiStep(s, s')
  {
    match s.api
    case Asked(req) => s' := if s.handle == None then s.(api := Stopped(req)) else s.(api := StopHeld(req));
    case StopHeld(req) => s' := s.(stop := true, api := StopSet(req));
    case StopSet(req) =>
      s' := s.(api := StopNotified(req));
      if t: nat :| IsWaiting(s, t) {
        s' := MoveThread(s', t, Waiting(true));
        assert IsWaiting(s, t) && s' == MoveThread(s.(api := StopNotified(s.api.req)), t, Waiting(true));
      }
      assert Notify(s, s');
    case StopNotified(req) => s' := s.(api := Joining(req));
    case Stopped(req) =>
      s' := if req.Disable? then s.(heap := Delete(s.heap, s.params), params := None, api := Idle)
            else if req.arrayLen == 0 || req.noIntervals then s.(api := Idle)
            else s.(heap := Delete(s.heap, s.params), api := Deleted(req));
    case Deleted(req) =>
      s' := s.(params := Some(s.nextBlock), heap := s.heap[s.nextBlock := req.valid],
               nextBlock := s.nextBlock + 1, api := Rebuilt(req));
    case Rebuilt(req) => s' := s.(stop := false, api := Rearmed(req));
    case Rearmed(req) =>
      var t := Above(s.threads.Keys);
      s' := if s.heap[s.params.value] == 0 then s.(api := Idle)
            else s.(threads := s.threads[t := Thread(Start, s.params.value)], handle := Some(t), api := Idle);
      assert t !in s.threads;
      assert s.heap[s.params.value] != 0 ==> Spawned(s, t, s');
  }

  /** A request that is being served can always take its next step, except while it joins a monitor, and then the
      monitor can; each of its steps brings it nearer its end and none changes what it asks for. StopNeverLost says the
      same of the monitor that is being joined, so every request ends. */
  lemma RequestAdvances(run: seq<State>, k: nat)
    requires Run(run) && k < |run| && !run[k].api.Idle?
    ensures var s := run[k];
      && (s.api.Joining? || exists s' :: ApiStep(s, s'))
      && (forall s' :: ApiStep(s, s') ==>
            Left(s'.api) < Left(s.api) && (s'.api.Idle? || s'.api.req == s.api.req))
  {
    RunInv(run, k);
    var s := run[k];
    if !s.api.Joining? {
      var s' := NextApiStep(s);
    }
    forall s' | ApiStep(s, s') ensures Left(s'.api) < Left(s.api) && (s'.api.Idle? || s'.api.req == s.api.req) {
      ApiStepAdvances(s, s');
    }
    hide ApiStep, Inv, Left;
  }

  /** A monitor exits only because a request asked for it. */
  lemma ExitsWhenAsked(run: seq<State>, k: nat, t: nat)
    requires Run(run) && k + 1 < |run| && Running(run[k], t) && !Running(run[k + 1], t)
    ensures run[k].stop && StopPending(run[k].api)
  {
    RunInv(run, k);
    assert Step(run[k], run[k + 1]);
    assert RunningWell(run[k], t);
  }

  /** A running monitor is never stuck and, unless it is to stop, never ends: it passes, waits, and after each wait that
      timed out passes again. */
  lemma KeepsMonitoring(run: seq<State>, k: nat, t: nat)
    requires Run(run) && k < |run| && Running(run[k], t)
    ensures var s := run[k]; var pc := s.threads[t].pc;
      && (MutexHeld(s.api) || exists pc' :: Next(s, pc, pc'))
      && (!s.stop ==> forall pc' :: Next(s, pc, pc') ==>
            match pc
            case Start => pc' == Body
            case Body => pc' == AtWait
            case AtWait => pc'.Waiting?
            case Waiting(_) => pc'.Woken?
            case Woken(timedOut) => if timedOut then pc' == Body else pc'.Waiting?
            case Exited => false)
  {
    RunInv(run, k);
    var s := run[k];
    var pc := s.threads[t].pc;
    assert RunningWell(s, t);
    var pc' := match pc
      case Start => if ConfigSeen(s) == Some(0) then Exited else Body
      case Body => AtWait
      case AtWait => if s.stop then Exited else Waiting(false)
      case Waiting(_) => Woken(true)
      case Woken(timedOut) => if s.stop then Exited else if timedOut then Body else Waiting(false)
      case Exited => Exited;
    assert MutexHeld(s.api) || Next(s, pc, pc');
  }

  /** No parameter block is ever leaked: the only one allocated is the current one. */
  lemma {:induction false} NothingLeaks(run: seq<State>, k: nat)
    requires Run(run) && k < |run|
    ensures forall b: nat :: b in run[k].heap ==> run[k].params == Some(b)
    ensures run[k].api.Deleted? ==> run[k].heap == map[]
  {
    if k > 0 {
      NothingLeaks(run, k - 1);
      assert Step(run[k - 1], run[k]);
    }
  }
}
