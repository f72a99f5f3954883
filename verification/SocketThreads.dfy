/** The threads around a socket_adaptor as interleaved steps: the worker in select, registering threads, writers,
    a terminating thread and a stopping thread.  A section under the mutex is one step, except that a registration
    holds the mutex between its two assignments, because the worker reads the callback slot without the mutex. */
module SocketThreads {
  import opened Wrappers
  import opened SocketAdaptor

  datatype Event = Accepted(fd: int) | Installed(fn: nat, data: nat) | Invoked(fn: nat, data: nat)

  /** Where the worker stands; listen remembers that the same select also reported the listening socket. */
  datatype Worker =
    | Select
    | Selected(control: bool, listen: bool)
    | GotMessage(code: Code, listen: bool)
    | Copied(fn: nat, data: nat, num: nat, listen: bool)
    | ControlDone(listen: bool)
    | Connected
    | Loading(loadedFn: Option<nat>, loadedData: Option<nat>)
    | Gone
    | Undefined

  datatype Stopper = NotStopping | ExitSent | Joined | StopDone

  /** installing: a registration between its two assignments, holding the mutex.  unsent: registrations that have
      released it and not yet written to the pipe.  failing: writers that failed and have not yet taken the mutex. */
  datatype State = State(shared: Shared, pipe: seq<Code>, worker: Worker, installing: Option<(nat, nat)>,
                         unsent: nat, failing: nat, stopper: Stopper, log: seq<Event>)

  const INIT := State(Shared(-1, 0, 0, 0), [], Select, None, 0, 0, NotStopping, [])

  predicate MutexFree(s: State) {
    s.installing == None
  }

  function Log(s: State, e: Event): State {
    s.(log := s.log + [e])
  }

  // ------------------------------------------------------- steps

  /** A call through the pointer fn; through a null pointer it is undefined. */
  function Call(s: State, fn: nat, data: nat, next: Worker): State {
    if fn == 0 then s.(worker := Undefined) else Log(s, Invoked(fn, data)).(worker := next)
  }

  predicate SelectReturns(s: State, listen: bool, s': State) {
    (|s.pipe| > 0 || listen) && s' == s.(worker := Selected(|s.pipe| > 0, listen))
  }

  predicate AcceptStep(s: State, fd: int, s': State) {
    s' == Log(s, Accepted(fd)).(shared := Replaced(s.shared, fd), worker := Connected)
  }

  ghost predicate WorkerStep(s: State, s': State) {
    match s.worker
    case Select =>
      // select reports the pipe exactly when it holds a message; it may also fail
      || s' == s.(worker := Gone)
      || (exists listen: bool :: SelectReturns(s, listen, s'))
    case Selected(control, listen) =>
      if !control then s' == s.(worker := ControlDone(listen))
      else |s.pipe| > 0 && s' == s.(pipe := s.pipe[1..], worker := GotMessage(s.pipe[0], listen))
    case GotMessage(code, listen) =>
      if code.Exit? then s' == s.(worker := Gone)
      else MutexFree(s) && s' == s.(worker := Copied(s.shared.fn, s.shared.data, s.shared.num, listen))
    case Copied(fn, data, num, listen) =>
      if fn != 0 && num != 0 then s' == Call(s, fn, data, ControlDone(listen))
      else s' == s.(worker := ControlDone(listen))
    case ControlDone(listen) =>
      if !listen then s' == s.(worker := Select)
      else MutexFree(s) && exists fd: int :: AcceptStep(s, fd, s')
    case Connected =>
      if s.shared.fn == 0 then s' == s.(worker := Select) else s' == s.(worker := Loading(None, None))
    case Loading(fn, data) =>
      // the pointer and its argument are read one after the other, in either order
      || (fn == None && s' == s.(worker := Loading(Some(s.shared.fn), data)))
      || (data == None && s' == s.(worker := Loading(fn, Some(s.shared.data))))
      || (fn.Some? && data.Some? && s' == Call(s, fn.value, data.value, Select))
    case Gone => false
    case Undefined => false
  }

  predicate RegisterFn(s: State, fn: nat, data: nat, s': State) {
    s' == s.(shared := s.shared.(fn := fn), installing := Some((fn, data)))
  }

  ghost predicate RegisterStep(s: State, s': State) {
    || (MutexFree(s) && exists fn: nat, data: nat :: RegisterFn(s, fn, data, s'))
    || (s.installing.Some? &&
        var (fn, data) := s.installing.value;
        s' == Log(s, Installed(fn, data)).(shared := s.shared.(data := data), installing := None,
                                           unsent := s.unsent + if fn != 0 then 1 else 0))
    || (s.unsent > 0 && s' == s.(pipe := s.pipe + [NewCallback], unsent := s.unsent - 1))
  }

  /** A write may fail at any time, since the client may close at any time. */
  ghost predicate WriteStep(s: State, s': State) {
    || s' == s.(failing := s.failing + 1)
    || (s.failing > 0 && MutexFree(s) && s' == s.(shared := Dropped(s.shared), failing := s.failing - 1))
  }

  ghost predicate TerminateStep(s: State, s': State) {
    MutexFree(s) && s' == s.(shared := Dropped(s.shared))
  }

  ghost predicate StopStep(s: State, s': State) {
    match s.stopper
    case NotStopping => MutexFree(s) && s' == s.(pipe := s.pipe + [Exit], stopper := ExitSent)
    case ExitSent => s.worker.Gone? && s' == s.(stopper := Joined)
    case Joined => MutexFree(s) && s' == s.(shared := Dropped(s.shared), stopper := StopDone)
    case StopDone => false
  }

  ghost predicate Step(s: State, s': State) {
    WorkerStep(s, s') || RegisterStep(s, s') || WriteStep(s, s') || TerminateStep(s, s') || StopStep(s, s')
  }

  ghost predicate Run(run: seq<State>) {
    |run| > 0 && run[0] == INIT && forall i :: 0 < i < |run| ==> Step(run[i - 1], run[i])
  }

  // ------------------------------------------------------- the connection count

  /** The log only grows. */
  lemma StepExtendsLog(s: State, s': State)
    requires Step(s, s')
    ensures s.log <= s'.log
  {
  }

  predicate NeverZero(log: seq<Event>) {
    Accepted(0) !in log
  }

  /** How often accept has yielded descriptor 0. */
  function Zeros(log: seq<Event>): nat {
    if log == [] then 0 else Zeros(log[..|log| - 1]) + if log[|log| - 1] == Accepted(0) then 1 else 0
  }

  predicate Lawful(sh: Shared, zeros: nat) {
    sh.num == (zeros + if Open(sh) then 1 else 0) % WORD
  }

  /** The connection count is the number of connections that were counted in and never out again: those on descriptor 0,
      and the open one. */
  predicate CountLaw(s: State) {
    Lawful(s.shared, Zeros(s.log))
  }

  lemma DropIsLawful(sh: Shared, zeros: nat)
    requires Lawful(sh, zeros)
    ensures Lawful(Dropped(sh), zeros) && !Open(Dropped(sh))
  {
  }

  lemma AcceptIsLawful(sh: Shared, zeros: nat, fd: int)
    requires Lawful(sh, zeros)
    ensures Lawful(Replaced(sh, fd), zeros + if fd == 0 then 1 else 0)
  {
    DropIsLawful(sh, zeros);
  }

  lemma ZerosSnoc(log: seq<Event>, e: Event)
    ensures Zeros(log + [e]) == Zeros(log) + if e == Accepted(0) then 1 else 0
  {
  }

  /** What a step can do to the count: nothing, drop the connection, or accept one. */
  lemma StepOnCount(s: State, s': State) returns (accepted: Option<int>)
    requires Step(s, s')
    ensures match accepted
      case Some(fd) => s'.shared == Replaced(s.shared, fd) && s'.log == s.log + [Accepted(fd)]
      case None =>
        && (s'.shared == Dropped(s.shared) || s'.shared == s.shared.(fn := s'.shared.fn, data := s'.shared.data))
        && (s'.log == s.log || exists e :: s'.log == s.log + [e] && !e.Accepted?)
  {
    accepted := None;
    hide Replaced, Dropped;
    if WorkerStep(s, s') && s.worker.ControlDone? && s.worker.listen {
      var fd: int :| AcceptStep(s, fd, s');
      accepted := Some(fd);
    } else if s'.log != s.log {
      var e := s'.log[|s.log|];
      assert s'.log == s.log + [e] && !e.Accepted?;
    }
  }

  lemma StepKeepsLaw(s: State, s': State)
    requires Step(s, s') && CountLaw(s)
    ensures CountLaw(s') && Zeros(s.log) <= Zeros(s'.log)
  {
    var accepted := StepOnCount(s, s');
    DropIsLawful(s.shared, Zeros(s.log));
    hide Step, Replaced, Dropped, Zeros;
    match accepted
    case Some(fd) =>
      AcceptIsLawful(s.shared, Zeros(s.log), fd);
      ZerosSnoc(s.log, Accepted(fd));
    case None =>
      if e :| s'.log == s.log + [e] && !e.Accepted? {
        ZerosSnoc(s.log, e);
      }
  }

  /** Over every run, accepts of descriptor 0 included. */
  lemma {:induction false} CountIsLawful(run: seq<State>, k: nat)
    requires Run(run) && k < |run|
    ensures CountLaw(run[k])
    ensures k > 0 ==> Zeros(run[k - 1].log) <= Zeros(run[k].log)
  {
    if k > 0 {
      CountIsLawful(run, k - 1);
      assert Step(run[k - 1], run[k]);
      StepKeepsLaw(run[k - 1], run[k]);
    }
  }

  lemma StepKeepsCount(s: State, s': State)
    requires Step(s, s') && CountRight(s.shared) && NeverZero(s.log)
    ensures CountRight(s'.shared) <==> NeverZero(s'.log)
  {
    if WorkerStep(s, s') && s.worker.ControlDone? && s.worker.listen {
      var fd: int :| AcceptStep(s, fd, s');
      SectionsKeepCount(s.shared, fd);
    } else {
      SectionsKeepCount(s.shared, 1);
    }
  }

  ghost predicate CountRightUpTo(run: seq<State>, k: nat)
    requires k < |run|
  {
    forall j :: 0 <= j <= k ==> CountRight(run[j].shared)
  }

  lemma StepKeepsCountHere(run: seq<State>, k: nat)
    requires Run(run) && 0 < k < |run| && CountRight(run[k - 1].shared) && NeverZero(run[k - 1].log)
    ensures CountRight(run[k].shared) <==> NeverZero(run[k].log)
  {
    assert Step(run[k - 1], run[k]);
    StepKeepsCount(run[k - 1], run[k]);
  }

  /** Over every run the connection count is 1 while the write descriptor is open and 0 otherwise, so it never
      underflows and never exceeds one, exactly when accept never yields descriptor 0. */
  lemma {:induction false} CountFollowsDescriptor(run: seq<State>, k: nat)
    requires Run(run) && k < |run|
    ensures CountRightUpTo(run, k) <==> NeverZero(run[k].log)
  {
    if k > 0 {
      CountFollowsDescriptor(run, k - 1);
      assert Step(run[k - 1], run[k]);
      StepExtendsLog(run[k - 1], run[k]);
      hide Step;
      if NeverZero(run[k - 1].log) {
        StepKeepsCountHere(run, k);
      }
    }
  }

  // ------------------------------------------------------- no lost notification

  /** Since the latest accepted connection and the latest installed callback, has (fn, data) been invoked? */
  predicate Notified(log: seq<Event>, fn: nat, data: nat) {
    |log| > 0 &&
    match log[|log| - 1]
    case Invoked(f, d) => (f == fn && d == data) || Notified(log[..|log| - 1], fn, data)
    case Accepted(fd) => fd < 0 && Notified(log[..|log| - 1], fn, data)
    case Installed(_, _) => false
  }

  /** Entry i invokes (fn, data), and after it no connection was accepted and no callback installed. */
  predicate InvokedSince(log: seq<Event>, i: int, fn: nat, data: nat) {
    && 0 <= i < |log| && log[i] == Invoked(fn, data)
    && forall j :: i < j < |log| ==> !log[j].Installed? && (log[j].Accepted? ==> log[j].fd < 0)
  }

  /** What Notified says, position by position: there is an invocation after which no connection was accepted and no
      callback installed. */
  lemma {:induction false} NotifiedMeans(log: seq<Event>, fn: nat, data: nat)
    ensures Notified(log, fn, data) <==>
      exists i :: InvokedSince(log, i, fn, data)
  {
    if |log| > 0 {
      var last, before := |log| - 1, log[..|log| - 1];
      NotifiedMeans(before, fn, data);
      if Notified(log, fn, data) {
        if log[last] == Invoked(fn, data) {
          assert InvokedSince(log, last, fn, data);
        } else {
          var i :| InvokedSince(before, i, fn, data);
          assert InvokedSince(log, i, fn, data);
        }
      }
      if i :| InvokedSince(log, i, fn, data) {
        if i < last {
          assert InvokedSince(before, i, fn, data);
        }
      }
    }
  }

  /** Somebody is still going to invoke the current callback: a registration that has not written its message yet, a
      message in the pipe, or a worker that has read one, or has just connected, and has not read an older callback
      since. */
  predicate Covered(s: State) {
    || s.installing.Some? || s.unsent > 0 || NewCallback in s.pipe
    || match s.worker
       case GotMessage(code, _) => code.NewCallback?
       case Copied(fn, data, num, _) => fn == s.shared.fn && data == s.shared.data && num != 0
       case Connected => true
       case Loading(fn, data) =>
         (fn.Some? ==> fn.value == s.shared.fn) && (data.Some? ==> data.value == s.shared.data)
       case _ => false
  }

  /** An open connection with a callback that has not been told about it is covered. */
  predicate NothingLost(s: State) {
    Open(s.shared) && s.shared.fn != 0 && !Notified(s.log, s.shared.fn, s.shared.data) ==> Covered(s)
  }

  /** A registration that holds the mutex has just written the callback that is in the slot. */
  predicate InstallingCurrent(s: State) {
    s.installing.Some? ==> s.installing.value.0 == s.shared.fn
  }

  /** An open connection shows in the count. */
  predicate CountSeen(sh: Shared) {
    Open(sh) ==> sh.num != 0
  }

  lemma FewZerosSeen(s: State)
    requires CountLaw(s) && Zeros(s.log) < WORD - 1
    ensures CountSeen(s.shared)
  {
  }

  lemma WorkerStepLosesNothing(s: State, s': State)
    requires WorkerStep(s, s') && NothingLost(s) && CountSeen(s.shared) && InstallingCurrent(s)
    ensures NothingLost(s') && InstallingCurrent(s')
  {
  }

  lemma OtherStepsLoseNothing(s: State, s': State)
    requires RegisterStep(s, s') || WriteStep(s, s') || TerminateStep(s, s') || StopStep(s, s')
    requires NothingLost(s) && InstallingCurrent(s)
    ensures NothingLost(s') && InstallingCurrent(s')
  {
  }

  lemma StepLosesNothing(s: State, s': State)
    requires Step(s, s') && NothingLost(s) && CountSeen(s.shared) && InstallingCurrent(s)
    ensures NothingLost(s') && InstallingCurrent(s')
  {
    hide WorkerStep, RegisterStep, WriteStep, TerminateStep, StopStep, NothingLost, InstallingCurrent, CountSeen;
    if WorkerStep(s, s') {
      WorkerStepLosesNothing(s, s');
    } else {
      OtherStepsLoseNothing(s, s');
    }
  }

  lemma {:induction false} RunLosesNothing(run: seq<State>, k: nat)
    requires Run(run) && k < |run| && Zeros(run[k].log) < WORD - 1
    ensures NothingLost(run[k]) && InstallingCurrent(run[k])
  {
    if k > 0 {
      CountIsLawful(run, k - 1);
      CountIsLawful(run, k);
      RunLosesNothing(run, k - 1);
      FewZerosSeen(run[k - 1]);
      assert Step(run[k - 1], run[k]);
      hide Step, NothingLost, InstallingCurrent, CountLaw, Zeros, CountSeen;
      StepLosesNothing(run[k - 1], run[k]);
    }
  }

  /** The worker is idle in select with an empty control pipe, no registration is under way, a connection is open and a
      callback is set. */
  predicate Settled(s: State) {
    s.worker.Select? && s.pipe == [] && s.installing == None && s.unsent == 0 && Open(s.shared) && s.shared.fn != 0
  }

  /** The callback in the slot has been invoked since the connection was accepted and since it was installed. */
  ghost predicate Told(s: State) {
    exists i :: InvokedSince(s.log, i, s.shared.fn, s.shared.data)
  }

  /** No notification is lost, in any interleaving of accepts, failed writes, terminations, registrations and a stop, as
      long as accept has yielded descriptor 0 fewer than 2^32 - 1 times.  SocketRuns shows the bound to be exact. */
  lemma NoLostNotification(run: seq<State>, k: nat)
    requires Run(run) && k < |run| && Zeros(run[k].log) < WORD - 1
    requires Settled(run[k])
    ensures Told(run[k])
  {
    RunLosesNothing(run, k);
    NotifiedMeans(run[k].log, run[k].shared.fn, run[k].shared.data);
  }

  // ------------------------------------------------------- the null test

  /** Has a registration cleared the slot, or is one about to be logged that has? */
  predicate Cleared(s: State) {
    (exists i :: 0 <= i < |s.log| && s.log[i].Installed? && s.log[i].fn == 0) ||
    (s.installing.Some? && s.installing.value.0 == 0)
  }

  /** A worker that tested the slot still sees a callback in it, unless it was cleared meanwhile. */
  predicate CallDefined(s: State) {
    Cleared(s) ||
    match s.worker
    case Loading(fn, _) => s.shared.fn != 0 && (fn.Some? ==> fn.value != 0)
    case Undefined => false
    case _ => true
  }

  lemma StepKeepsCallDefined(s: State, s': State)
    requires Step(s, s') && CallDefined(s)
    ensures CallDefined(s')
  {
    StepExtendsLog(s, s');
    if Cleared(s) {
      if i :| 0 <= i < |s.log| && s.log[i].Installed? && s.log[i].fn == 0 {
        assert s'.log[i].Installed? && s'.log[i].fn == 0;
      } else if s'.installing == None {
        assert s'.log == s.log + [Installed(s.installing.value.0, s.installing.value.1)];
        assert s'.log[|s.log|].Installed? && s'.log[|s.log|].fn == 0;
      }
    }
  }

  /** The worker tests the callback slot and calls through a second, unlocked read of it.  In every run that call is
      made through a null pointer only after some registration cleared the slot. */
  lemma {:induction false} NullCallNeedsClearing(run: seq<State>, k: nat)
    requires Run(run) && k < |run|
    ensures CallDefined(run[k])
    ensures run[k].worker.Undefined? ==> Cleared(run[k])
  {
    if k > 0 {
      assert Step(run[k - 1], run[k]);
      NullCallNeedsClearing(run, k - 1);
      StepKeepsCallDefined(run[k - 1], run[k]);
    }
  }
}
