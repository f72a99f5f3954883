/** stop_listening comes to its end: the exit message it sends reaches the worker, whatever else is going on. */
module SocketStop {
  import opened Wrappers
  import opened SocketAdaptor
  import opened SocketThreads

  /** Has the worker left its loop, or run into a call through a null pointer? */
  predicate Over(s: State) {
    s.worker.Gone? || s.worker.Undefined?
  }

  predicate GotExit(s: State) {
    s.worker.GotMessage? && s.worker.code.Exit?
  }

  /** An exit message is in the pipe or has been read, or the worker is over. */
  predicate ExitDue(s: State) {
    Exit in s.pipe || GotExit(s) || Over(s)
  }

  function FirstExit(pipe: seq<Code>): nat {
    if pipe == [] || pipe[0] == Exit then 0 else 1 + FirstExit(pipe[1..])
  }

  lemma {:induction false} FirstExitStays(pipe: seq<Code>, c: Code)
    requires Exit in pipe
    ensures FirstExit(pipe + [c]) == FirstExit(pipe)
  {
    if pipe[0] != Exit {
      FirstExitStays(pipe[1..], c);
      assert (pipe + [c])[1..] == pipe[1..] + [c];
    }
  }

  /** Steps the worker still has to take before it reads its next message. */
  function Stage(w: Worker): nat {
    match w
    case GotMessage(_, _) => 13
    case Copied(_, _, _, _) => 12
    case Selected(control, _) => if control then 5 else 12
    case ControlDone(_) => 11
    case Connected => 10
    case Loading(fn, data) => 7 + (if fn.None? then 1 else 0) + if data.None? then 1 else 0
    case Select => 6
    case Gone => 0
    case Undefined => 0
  }

  /** A bound on the worker's steps until it is over, once an exit message is due. */
  function Remaining(s: State): nat {
    if Over(s) then 0 else if GotExit(s) then 1 else 20 * FirstExit(s.pipe) + Stage(s.worker)
  }

  /** Every step of the worker brings it nearer its end. */
  lemma WorkerNears(s: State, s': State)
    requires WorkerStep(s, s') && ExitDue(s)
    ensures ExitDue(s') && Remaining(s') < Remaining(s)
  {
    if s.worker.Selected? && s.worker.control {
      assert s.pipe == [s.pipe[0]] + s.pipe[1..];
    }
  }

  /** No other thread sets it back. */
  lemma OthersKeep(s: State, s': State)
    requires RegisterStep(s, s') || WriteStep(s, s') || TerminateStep(s, s') || StopStep(s, s')
    requires ExitDue(s)
    ensures ExitDue(s') && Remaining(s') == Remaining(s)
  {
    if Exit in s.pipe {
      FirstExitStays(s.pipe, NewCallback);
      FirstExitStays(s.pipe, Exit);
    }
  }

  lemma WorkerCanStep(s: State) returns (s': State)
    requires ExitDue(s) && !Over(s) && MutexFree(s)
    ensures WorkerStep(s, s')
  {
    match s.worker
    case Select =>
      s' := s.(worker := Selected(true, false));
      assert SelectReturns(s, false, s');
    case Selected(control, listen) =>
      s' := if control then s.(pipe := s.pipe[1..], worker := GotMessage(s.pipe[0], listen))
            else s.(worker := ControlDone(listen));
    case GotMessage(code, listen) =>
      s' := if code.Exit? then s.(worker := Gone)
            else s.(worker := Copied(s.shared.fn, s.shared.data, s.shared.num, listen));
    case Copied(fn, data, num, listen) =>
      s' := if fn != 0 && num != 0 then Call(s, fn, data, ControlDone(listen)) else s.(worker := ControlDone(listen));
    case ControlDone(listen) =>
      if listen {
        s' := Log(s, Accepted(-1)).(shared := Replaced(s.shared, -1), worker := Connected);
        assert AcceptStep(s, -1, s');
      } else {
        s' := s.(worker := Select);
      }
    case Connected => s' := if s.shared.fn == 0 then s.(worker := Select) else s.(worker := Loading(None, None));
    case Loading(fn, data) =>
      s' := if fn.None? then s.(worker := Loading(Some(s.shared.fn), data))
            else if data.None? then s.(worker := Loading(fn, Some(s.shared.data)))
            else Call(s, fn.value, data.value, Select);
  }

  // ------------------------------------------------------- every run

  /** What a stop under way means. */
  predicate StopKept(s: State) {
    && (s.stopper.ExitSent? ==> ExitDue(s))
    && (s.stopper.Joined? || s.stopper.StopDone? ==> s.worker.Gone?)
    && (s.stopper.StopDone? ==> !Open(s.shared))
  }

  lemma StepKeepsStop(s: State, s': State)
    requires Step(s, s') && StopKept(s)
    ensures StopKept(s')
  {
    if ExitDue(s) {
      if WorkerStep(s, s') {
        WorkerNears(s, s');
      } else {
        OthersKeep(s, s');
      }
    }
    hide Remaining, FirstExit;
  }

  lemma {:induction false} RunKeepsStop(run: seq<State>, k: nat)
    requires Run(run) && k < |run|
    ensures StopKept(run[k])
  {
    if k > 0 {
      RunKeepsStop(run, k - 1);
      assert Step(run[k - 1], run[k]);
      StepKeepsStop(run[k - 1], run[k]);
    }
  }

  lemma StepNears(s: State, s': State)
    requires Step(s, s') && ExitDue(s)
    ensures Remaining(s') <= Remaining(s) && (WorkerStep(s, s') ==> Remaining(s') < Remaining(s))
  {
    hide WorkerStep, RegisterStep, WriteStep, TerminateStep, StopStep, Remaining, ExitDue;
    if WorkerStep(s, s') {
      WorkerNears(s, s');
    } else {
      OthersKeep(s, s');
    }
  }

  /** The registration that holds the mutex makes its second assignment. */
  lemma Released(s: State) returns (s': State)
    requires !MutexFree(s)
    ensures RegisterStep(s, s') && MutexFree(s')
  {
    var (fn, data) := s.installing.value;
    s' := Log(s, Installed(fn, data)).(shared := s.shared.(data := data), installing := None,
                                       unsent := s.unsent + if fn != 0 then 1 else 0);
  }

  /** After stop_listening has sent its message: every step of the worker brings it nearer its end and no step of
      another thread sets it back; the worker can step whenever the mutex is free, and a registration that holds the
      mutex can release it; and when the worker is gone the join completes. */
  lemma StopEnds(run: seq<State>, k: nat)
    requires Run(run) && k < |run| && run[k].stopper.ExitSent?
    ensures var s := run[k];
      && (forall s' :: Step(s, s') ==> Remaining(s') <= Remaining(s))
      && (forall s' :: WorkerStep(s, s') ==> Remaining(s') < Remaining(s))
      && (Over(s) || !MutexFree(s) || exists s' :: WorkerStep(s, s'))
      && (!MutexFree(s) ==> exists s' :: RegisterStep(s, s') && MutexFree(s'))
      && (s.worker.Gone? ==> exists s' :: StopStep(s, s') && s'.stopper.Joined?)
  {
    var s := run[k];
    RunKeepsStop(run, k);
    forall s' | Step(s, s')
      ensures Remaining(s') <= Remaining(s) && (WorkerStep(s, s') ==> Remaining(s') < Remaining(s))
    {
      StepNears(s, s');
    }
    if !MutexFree(s) {
      var s' := Released(s);
    } else if !Over(s) {
      var s' := WorkerCanStep(s);
    }
    if s.worker.Gone? {
      var s' := s.(stopper := Joined);
      assert StopStep(s, s');
    }
    hide WorkerStep, RegisterStep, WriteStep, TerminateStep, Remaining;
  }

  /** Once stop_listening is done the worker is gone and no connection is open, and that stays so. */
  lemma StoppedForGood(run: seq<State>, k: nat)
    requires Run(run) && k < |run| && run[k].stopper.StopDone?
    ensures run[k].worker.Gone? && !Open(run[k].shared)
    ensures forall s' :: Step(run[k], s') ==> s'.stopper.StopDone? && s'.worker.Gone? && !Open(s'.shared)
  {
    RunKeepsStop(run, k);
    forall s' | Step(run[k], s') ensures s'.stopper.StopDone? && s'.worker.Gone? && !Open(s'.shared) {
      StepKeepsStop(run[k], s');
    }
  }
}
