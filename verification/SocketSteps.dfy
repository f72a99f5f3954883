/** The steps of the worker and of a registration, when no other thread comes in between, do what the methods of
    SocketAdaptor.Adaptor state. */
module SocketSteps {
  import opened Wrappers
  import opened SocketAdaptor
  import opened SocketThreads

  function AfterCall(s: State, call: Option<(nat, nat)>): State {
    if call.Some? then Log(s, Invoked(call.value.0, call.value.1)) else s
  }

  /** The worker alone, from the accept on, up to its return to select. */
  ghost predicate HandlesConnection(run: seq<State>) {
    && |run| > 1 && run[0].worker == ControlDone(true)
    && (forall i :: 0 < i < |run| ==> WorkerStep(run[i - 1], run[i]))
    && (forall i :: 0 < i < |run| - 1 ==> !run[i].worker.Select?)
    && run[|run| - 1].worker.Select?
  }

  /** How far the handling of a connection accepted as fd in s0 has come. */
  predicate Midway(s0: State, fd: int, s: State) {
    var connected := Log(s0, Accepted(fd)).(shared := Replaced(s0.shared, fd));
    match s.worker
    case Connected => s == connected.(worker := Connected)
    case Loading(fn, data) =>
      && s0.shared.fn != 0 && s == connected.(worker := Loading(fn, data))
      && (fn.Some? ==> fn.value == s0.shared.fn) && (data.Some? ==> data.value == s0.shared.data)
    case Select => s == AfterCall(connected, Greeting(s0.shared)).(worker := Select)
    case _ => false
  }

  lemma MidwayStep(s0: State, fd: int, s: State, s': State)
    requires Midway(s0, fd, s) && !s.worker.Select? && WorkerStep(s, s')
    ensures Midway(s0, fd, s')
  {
  }

  lemma {:induction false} ComesMidway(run: seq<State>, k: nat) returns (fd: int)
    requires HandlesConnection(run) && 0 < k < |run|
    ensures Midway(run[0], fd, run[k])
  {
    assert WorkerStep(run[k - 1], run[k]);
    if k == 1 {
      fd :| AcceptStep(run[0], fd, run[1]);
    } else {
      fd := ComesMidway(run, k - 1);
      MidwayStep(run[0], fd, run[k - 1], run[k]);
    }
  }

  /** The steps from the accept to the next select replace the connection and invoke the callback as
      ProcessNewConnection does. */
  lemma ConnectionSteps(run: seq<State>) returns (fd: int)
    requires HandlesConnection(run)
    ensures run[|run| - 1] ==
      AfterCall(Log(run[0], Accepted(fd)), Greeting(run[0].shared)).(
        shared := Replaced(run[0].shared, fd), worker := Select)
  {
    fd := ComesMidway(run, |run| - 1);
  }

  /** The two steps after a message is read invoke the callback as ProcessControlMessage does. */
  lemma MessageSteps(s0: State, s1: State, s2: State)
    requires s0.worker.GotMessage? && s0.worker.code.NewCallback? && WorkerStep(s0, s1) && WorkerStep(s1, s2)
    ensures s2 == AfterCall(s0, Answer(s0.shared, NewCallback)).(worker := ControlDone(s0.worker.listen))
  {
  }

  /** The steps of one registration install the callback and announce it as RegisterDataReadyCallback does. */
  lemma RegistrationSteps(s0: State, fn: nat, data: nat, s1: State, s2: State, s3: State)
    requires MutexFree(s0) && s0.unsent == 0 && RegisterFn(s0, fn, data, s1) && RegisterStep(s1, s2)
    requires if fn != 0 then RegisterStep(s2, s3) && s3.installing == None else s3 == s2
    ensures s3 == Log(s0, Installed(fn, data)).(
      shared := s0.shared.(fn := fn, data := data), pipe := s0.pipe + Announced(fn))
  {
  }
}
