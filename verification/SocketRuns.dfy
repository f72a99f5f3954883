/** Runs of the socket_adaptor threads that show where its promises end, and the exact conditions under which they
    hold. */
module SocketRuns {
  import opened Wrappers
  import opened SocketAdaptor
  import opened SocketThreads

  function Last(run: seq<State>): State
    requires |run| > 0
  {
    run[|run| - 1]
  }

  lemma Extend(run: seq<State>, s': State)
    requires Run(run) && Step(Last(run), s')
    ensures Run(run + [s'])
  {
    var longer := run + [s'];
    forall i | 0 < i < |longer| ensures Step(longer[i - 1], longer[i]) {
      if i < |run| {
        assert longer[i - 1] == run[i - 1] && longer[i] == run[i];
      }
    }
  }

  /** The worker moves on. */
  lemma Work(run: seq<State>, s': State) returns (longer: seq<State>)
    requires Run(run) && WorkerStep(Last(run), s')
    ensures Run(longer) && longer == run + [s']
  {
    Extend(run, s');
    longer := run + [s'];
  }

  /** The worker accepts fd while no callback is installed. */
  lemma AcceptRound(run: seq<State>, fd: int) returns (longer: seq<State>)
    requires Run(run)
    requires var s := Last(run); s.worker.Select? && s.pipe == [] && s.installing == None && s.shared.fn == 0
    ensures Run(longer)
    ensures Last(longer) == Log(Last(run), Accepted(fd)).(shared := Replaced(Last(run).shared, fd))
  {
    var s := Last(run);
    var selected := s.(worker := Selected(false, true));
    assert SelectReturns(s, true, selected);
    longer := Work(run, selected);
    longer := Work(longer, s.(worker := ControlDone(true)));
    var accepted := Log(s, Accepted(fd)).(shared := Replaced(s.shared, fd), worker := Connected);
    assert AcceptStep(s.(worker := ControlDone(true)), fd, accepted);
    longer := Work(longer, accepted);
    longer := Work(longer, accepted.(worker := Select));
  }

  /** A registration's two assignments. */
  lemma InstallRound(run: seq<State>, fn: nat, data: nat) returns (longer: seq<State>)
    requires Run(run) && Last(run).installing == None
    ensures Run(longer) && |longer| == |run| + 2 && longer[..|run|] == run
    ensures longer[|run|].installing == Some((fn, data))
    ensures Last(longer) == Log(Last(run), Installed(fn, data)).(
      shared := Last(run).shared.(fn := fn, data := data), unsent := Last(run).unsent + if fn != 0 then 1 else 0)
  {
    var s := Last(run);
    var held := s.(shared := s.shared.(fn := fn), installing := Some((fn, data)));
    assert RegisterFn(s, fn, data, held);
    Extend(run, held);
    var done := Log(held, Installed(fn, data)).(shared := held.shared.(data := data), installing := None,
                                                unsent := held.unsent + if fn != 0 then 1 else 0);
    assert RegisterStep(held, done);
    Extend(run + [held], done);
    longer := run + [held] + [done];
  }

  // ------------------------------------------------------- the connection count

  lemma {:induction false} ZeroAccepts(n: nat) returns (run: seq<State>)
    ensures Run(run)
    ensures var s := Last(run);
      s == INIT.(shared := s.shared, log := s.log) && s.shared.fn == 0 && s.shared.writeFd <= 0 &&
      s.shared.num == n % WORD && Zeros(s.log) == n && forall i :: 0 <= i < |s.log| ==> s.log[i].Accepted?
  {
    if n == 0 {
      run := [INIT];
    } else {
      var before := ZeroAccepts(n - 1);
      run := AcceptRound(before, 0);
      assert Last(run).log[..|Last(before).log|] == Last(before).log;
    }
  }

  /** After one accept of descriptor 0 the count is 1 with nothing open. */
  lemma ZeroBreaksCount() returns (run: seq<State>)
    ensures Run(run) && Last(run).shared.num == 1 && !Open(Last(run).shared) && !CountRight(Last(run).shared)
  {
    run := ZeroAccepts(1);
  }

  // ------------------------------------------------------- no lost notification

  /** No notification is lost in runs in which accept yields descriptor 0 at most z times. */
  ghost predicate NoLossUpTo(z: nat) {
    forall run: seq<State>, k: nat ::
      Run(run) && k < |run| && Zeros(run[k].log) <= z && Settled(run[k]) ==> Told(run[k])
  }

  /** The worker reads a message while the count reads 0. */
  lemma DropRound(run: seq<State>) returns (longer: seq<State>)
    requires Run(run)
    requires var s := Last(run);
      s.worker.Select? && s.pipe == [NewCallback] && s.installing == None && s.shared.num == 0
    ensures Run(longer) && Last(longer) == Last(run).(pipe := [])
  {
    var s := Last(run);
    var selected := s.(worker := Selected(true, false));
    assert SelectReturns(s, false, selected);
    longer := Work(run, selected);
    var got := s.(pipe := [], worker := GotMessage(NewCallback, false));
    assert s.pipe[1..] == [];
    longer := Work(longer, got);
    var copied := got.(worker := Copied(s.shared.fn, s.shared.data, 0, false));
    longer := Work(longer, copied);
    longer := Work(longer, copied.(worker := ControlDone(false)));
    longer := Work(longer, copied.(worker := Select));
  }

  /** After 2^32 - 1 accepts of descriptor 0 the count of an open connection wraps to 0, and the next registration is
      not told about it. */
  lemma LossRun() returns (run: seq<State>)
    ensures Run(run) && Zeros(Last(run).log) == WORD - 1 && Settled(Last(run)) && !Told(Last(run))
  {
    run := ZeroAccepts(WORD - 1);
    var zeros := Last(run).log;
    run := AcceptRound(run, 1);
    var open := Last(run);
    assert open.shared.num == 0 && Open(open.shared);
    assert open.log[..|zeros|] == zeros && Zeros(open.log) == WORD - 1;
    run := InstallRound(run, 1, 0);
    assert Last(run).log[..|open.log|] == open.log;
    var sent := Last(run).(pipe := [NewCallback], unsent := 0);
    assert RegisterStep(Last(run), sent);
    Extend(run, sent);
    run := DropRound(run + [sent]);
    assert forall i :: 0 <= i < |Last(run).log| ==> !Last(run).log[i].Invoked?;
  }

  /** Notifications are never lost if and only if accept yields descriptor 0 fewer than 2^32 - 1 times. */
  lemma NoLossExactly(z: nat)
    ensures NoLossUpTo(z) <==> z < WORD - 1
  {
    if z < WORD - 1 {
      forall run: seq<State>, k: nat | Run(run) && k < |run| && Zeros(run[k].log) <= z && Settled(run[k])
        ensures Told(run[k])
      {
        NoLostNotification(run, k);
      }
    } else {
      var run := LossRun();
      assert Zeros(run[|run| - 1].log) <= z;
    }
  }

  // ------------------------------------------------------- the null test

  /** Every registration that is made passes one of fs. */
  ghost predicate RegistersIn(run: seq<State>, fs: set<nat>) {
    forall i :: 0 <= i < |run| && run[i].installing.Some? ==> run[i].installing.value.0 in fs
  }

  ghost predicate NeverNullCall(fs: set<nat>) {
    forall run: seq<State>, k: nat ::
      Run(run) && k < |run| && RegistersIn(run, fs) ==> !run[k].worker.Undefined?
  }

  /** What has been installed was passed by a registration. */
  ghost predicate InstalledIn(s: State, fs: set<nat>) {
    forall i :: 0 <= i < |s.log| && s.log[i].Installed? ==> s.log[i].fn in fs
  }

  lemma {:induction false} LogFollowsRegistrations(run: seq<State>, fs: set<nat>, k: nat)
    requires Run(run) && RegistersIn(run, fs) && k < |run|
    ensures InstalledIn(run[k], fs)
  {
    if k > 0 {
      LogFollowsRegistrations(run, fs, k - 1);
      assert Step(run[k - 1], run[k]);
    }
  }

  /** Callers that only ever pass null leave the slot empty, and nothing is called. */
  lemma {:induction false} SlotStaysEmpty(run: seq<State>, k: nat)
    requires Run(run) && RegistersIn(run, {0}) && k < |run|
    ensures run[k].shared.fn == 0 && !run[k].worker.Loading? && !run[k].worker.Undefined?
    ensures run[k].worker.Copied? ==> run[k].worker.fn == 0
  {
    if k > 0 {
      SlotStaysEmpty(run, k - 1);
      assert Step(run[k - 1], run[k]);
    }
  }

  /** A callback f is installed; the worker accepts a connection, tests the slot, and then a registration of null gets
      its first assignment in before the worker reads the slot again. */
  lemma NullRun(f: nat) returns (run: seq<State>)
    requires f != 0
    ensures Run(run) && RegistersIn(run, {0, f}) && Last(run).worker.Undefined?
  {
    run := InstallRound([INIT], f, 0);
    var s := Last(run);
    var selected := s.(worker := Selected(false, true));
    assert SelectReturns(s, true, selected);
    run := Work(run, selected);
    run := Work(run, s.(worker := ControlDone(true)));
    var accepted := Log(s, Accepted(1)).(shared := Replaced(s.shared, 1), worker := Connected);
    assert AcceptStep(s.(worker := ControlDone(true)), 1, accepted);
    run := Work(run, accepted);
    var tested := accepted.(worker := Loading(None, None));
    run := Work(run, tested);
    var cleared := tested.(shared := tested.shared.(fn := 0), installing := Some((0, 0)));
    assert RegisterFn(tested, 0, 0, cleared);
    Extend(run, cleared);
    run := run + [cleared];
    run := Work(run, cleared.(worker := Loading(Some(0), None)));
    run := Work(run, cleared.(worker := Loading(Some(0), Some(cleared.shared.data))));
    run := Work(run, cleared.(worker := Undefined));
  }

  lemma RegistersInMore(run: seq<State>, few: set<nat>, many: set<nat>)
    requires RegistersIn(run, few) && few <= many
    ensures RegistersIn(run, many)
  {
  }

  /** The second, unlocked read of the slot is never called through as null if and only if callers never pass null, or
      never pass anything else. */
  lemma NullCallExactly(fs: set<nat>)
    ensures NeverNullCall(fs) <==> 0 !in fs || fs == {0}
  {
    if 0 !in fs {
      forall run: seq<State>, k: nat | Run(run) && k < |run| && RegistersIn(run, fs)
        ensures !run[k].worker.Undefined?
      {
        NullCallNeedsClearing(run, k);
        LogFollowsRegistrations(run, fs, k);
      }
    } else if fs == {0} {
      forall run: seq<State>, k: nat | Run(run) && k < |run| && RegistersIn(run, fs)
        ensures !run[k].worker.Undefined?
      {
        SlotStaysEmpty(run, k);
      }
    } else {
      var f :| f in fs && f != 0;
      var run := NullRun(f);
      RegistersInMore(run, {0, f}, fs);
      assert run[|run| - 1].worker.Undefined?;
    }
  }

  // ------------------------------------------------------- which pairs are called

  /** Every registration that is made passes a callback and data that are a pair of regs. */
  ghost predicate PairsIn(run: seq<State>, regs: set<(nat, nat)>) {
    forall i :: 0 <= i < |run| && run[i].installing.Some? ==> run[i].installing.value in regs
  }

  ghost predicate CalledIn(s: State, regs: set<(nat, nat)>) {
    forall i :: 0 <= i < |s.log| && s.log[i].Invoked? ==> (s.log[i].fn, s.log[i].data) in regs
  }

  /** A callback is only ever called with data it was registered with. */
  ghost predicate OnlyRegisteredCalls(regs: set<(nat, nat)>) {
    forall run: seq<State>, k: nat :: Run(run) && k < |run| && PairsIn(run, regs) ==> CalledIn(run[k], regs)
  }

  ghost predicate FnKnown(regs: set<(nat, nat)>, fn: nat) {
    fn == 0 || exists data: nat :: (fn, data) in regs
  }

  /** Data that some registration passes, or that the slot starts with. */
  ghost predicate DataKnown(regs: set<(nat, nat)>, data: nat) {
    data == 0 || exists fn: nat :: (fn, data) in regs
  }

  /** Each callback is registered with all the data there is. */
  ghost predicate Complete(regs: set<(nat, nat)>) {
    forall fn: nat, data: nat :: fn != 0 && FnKnown(regs, fn) && DataKnown(regs, data) ==> (fn, data) in regs
  }

  /** Callbacks and data are taken from the registrations, not necessarily from the same one. */
  ghost predicate Taken(s: State, regs: set<(nat, nat)>) {
    && FnKnown(regs, s.shared.fn) && DataKnown(regs, s.shared.data)
    && (match s.worker
        case Copied(fn, data, _, _) => FnKnown(regs, fn) && DataKnown(regs, data)
        case Loading(fn, data) =>
          (fn.Some? ==> FnKnown(regs, fn.value)) && (data.Some? ==> DataKnown(regs, data.value))
        case _ => true)
    && forall i :: 0 <= i < |s.log| && s.log[i].Invoked? ==>
         s.log[i].fn != 0 && FnKnown(regs, s.log[i].fn) && DataKnown(regs, s.log[i].data)
  }

  lemma ReplacedKeepsSlot(sh: Shared)
    ensures forall fd :: Replaced(sh, fd).fn == sh.fn && Replaced(sh, fd).data == sh.data
    ensures Dropped(sh).fn == sh.fn && Dropped(sh).data == sh.data
  {
  }

  lemma WorkerTakes(s: State, s': State, regs: set<(nat, nat)>)
    requires WorkerStep(s, s') && Taken(s, regs)
    ensures Taken(s', regs)
  {
    hide FnKnown, DataKnown, Replaced, Dropped;
    ReplacedKeepsSlot(s.shared);
  }

  lemma OthersTake(s: State, s': State, regs: set<(nat, nat)>)
    requires RegisterStep(s, s') || WriteStep(s, s') || TerminateStep(s, s') || StopStep(s, s')
    requires Taken(s, regs)
    requires s.installing.Some? ==> s.installing.value in regs
    requires s'.installing.Some? ==> s'.installing.value in regs
    ensures Taken(s', regs)
  {
    ReplacedKeepsSlot(s.shared);
    if s.installing.Some? {
      assert FnKnown(regs, s.installing.value.0) && DataKnown(regs, s.installing.value.1);
    }
    if s'.installing.Some? {
      assert FnKnown(regs, s'.installing.value.0) && DataKnown(regs, s'.installing.value.1);
    }
    hide FnKnown, DataKnown, Replaced, Dropped;
  }

  lemma {:induction false} RunTakes(run: seq<State>, regs: set<(nat, nat)>, k: nat)
    requires Run(run) && PairsIn(run, regs) && k < |run|
    ensures Taken(run[k], regs)
  {
    if k > 0 {
      RunTakes(run, regs, k - 1);
      assert Step(run[k - 1], run[k]);
      hide Taken, WorkerStep, RegisterStep, WriteStep, TerminateStep, StopStep;
      if WorkerStep(run[k - 1], run[k]) {
        WorkerTakes(run[k - 1], run[k], regs);
      } else {
        OthersTake(run[k - 1], run[k], regs);
      }
    }
  }

  /** A connection is accepted; then a registration of (fn, other) gets its first assignment in, and the worker calls fn
      with the data that is still in the slot. */
  lemma MixRound(run: seq<State>, fn: nat, other: nat) returns (longer: seq<State>)
    requires Run(run) && fn != 0
    requires Last(run).worker.Select? && Last(run).pipe == [] && Last(run).installing == None
    ensures Run(longer) && Last(longer).log == Last(run).log + [Accepted(1)] + [Invoked(fn, Last(run).shared.data)]
    ensures forall i :: 0 <= i < |longer| && longer[i].installing.Some? ==>
      longer[i].installing.value == (fn, other) || (i < |run| && longer[i] == run[i])
  {
    var s := Last(run);
    var selected := s.(worker := Selected(false, true));
    assert SelectReturns(s, true, selected);
    longer := Work(run, selected);
    longer := Work(longer, s.(worker := ControlDone(true)));
    var accepted := Log(s, Accepted(1)).(shared := Replaced(s.shared, 1), worker := Connected);
    assert AcceptStep(s.(worker := ControlDone(true)), 1, accepted);
    longer := Work(longer, accepted);
    var held := accepted.(shared := accepted.shared.(fn := fn), installing := Some((fn, other)));
    assert RegisterFn(accepted, fn, other, held);
    Extend(longer, held);
    longer := longer + [held];
    longer := Work(longer, held.(worker := Loading(None, None)));
    longer := Work(longer, held.(worker := Loading(Some(fn), None)));
    longer := Work(longer, held.(worker := Loading(Some(fn), Some(s.shared.data))));
    longer := Work(longer, Log(held, Invoked(fn, s.shared.data)).(worker := Select));
  }

  lemma MixRun(regs: set<(nat, nat)>, fn: nat, other: nat, data: nat) returns (run: seq<State>)
    requires fn != 0 && (fn, other) in regs && DataKnown(regs, data)
    ensures Run(run) && PairsIn(run, regs)
    ensures Last(run).log != [] && Last(run).log[|Last(run).log| - 1] == Invoked(fn, data)
  {
    run := [INIT];
    if data != 0 {
      var g: nat :| (g, data) in regs;
      run := InstallRound(run, g, data);
    }
    assert PairsIn(run, regs);
    run := MixRound(run, fn, other);
  }

  /** The worker reads the callback and its data one after the other and without the mutex. A callback is only ever
      called with data it was registered with if and only if each is registered with all the data there is. */
  lemma CalledExactly(regs: set<(nat, nat)>)
    ensures OnlyRegisteredCalls(regs) <==> Complete(regs)
  {
    if Complete(regs) {
      forall run: seq<State>, k: nat | Run(run) && k < |run| && PairsIn(run, regs) ensures CalledIn(run[k], regs) {
        RunTakes(run, regs, k);
      }
    } else {
      var fn: nat, data: nat :|
        fn != 0 && FnKnown(regs, fn) && DataKnown(regs, data) && (fn, data) !in regs;
      var other: nat :| (fn, other) in regs;
      var run := MixRun(regs, fn, other, data);
      assert !CalledIn(run[|run| - 1], regs);
    }
  }
}
