/** The shared state of socket_adaptor and its critical sections, in place and as functions on values. */
module SocketAdaptor {
  import opened Wrappers

  datatype Code = Exit | NewCallback

  /** The fields the threads share.  fn and data are the callback slot; fn 0 is the null pointer.  num is a 32-bit
      unsigned counter. */
  datatype Shared = Shared(writeFd: int, num: nat, fn: nat, data: nat)

  const WORD := 0x1_0000_0000

  predicate Open(sh: Shared) {
    0 < sh.writeFd
  }

  /** The section shared by a failed write, terminate_current_connection and stop_listening. */
  function Dropped(sh: Shared): Shared {
    if Open(sh) then sh.(writeFd := -1, num := (sh.num - 1) % WORD) else sh
  }

  /** The section of process_new_connection, for a given result of accept. */
  function Replaced(sh: Shared, accepted: int): Shared {
    var trashed := Dropped(sh);
    if accepted < 0 then trashed.(writeFd := accepted)
    else trashed.(writeFd := accepted, num := (trashed.num + 1) % WORD)
  }

  /** The connection count says whether a write descriptor is open. */
  predicate CountRight(sh: Shared) {
    sh.num == if Open(sh) then 1 else 0
  }

  /** Trashing, failing and accepting keep the count right; an accept keeps it right exactly when it does not yield
      descriptor 0. */
  lemma SectionsKeepCount(sh: Shared, accepted: int)
    requires CountRight(sh)
    ensures CountRight(Dropped(sh))
    ensures CountRight(Replaced(sh, accepted)) <==> accepted != 0
  {
  }

  /** What process_new_connection invokes. */
  function Greeting(sh: Shared): Option<(nat, nat)> {
    if sh.fn != 0 then Some((sh.fn, sh.data)) else None
  }

  /** What process_control_message invokes. */
  function Answer(sh: Shared, message: Code): Option<(nat, nat)> {
    if message.NewCallback? && sh.fn != 0 && sh.num != 0 then Some((sh.fn, sh.data)) else None
  }

  /** What a registration puts into the control pipe. */
  function Announced(callback: nat): seq<Code> {
    if callback != 0 then [NewCallback] else []
  }

  class Adaptor {
    var writeFd: int
    var num: nat
    var fn: nat
    var data: nat
    var pipe: seq<Code>

    constructor ()
      ensures View() == Shared(-1, 0, 0, 0) && pipe == []
    {
      writeFd, num, fn, data, pipe := -1, 0, 0, 0, [];
    }

    ghost function View(): Shared
      reads this
    {
      Shared(writeFd, num, fn, data)
    }

    method TerminateCurrentConnection()
      modifies this`writeFd, this`num
      ensures View() == Dropped(old(View()))
    {
      if 0 < writeFd {
        writeFd := -1;
        num := (num - 1) % WORD;
      }
    }

    /** The locked part of process_new_connection. */
    method ReplaceConnection(accepted: int)
      modifies this`writeFd, this`num
      ensures View() == Replaced(old(View()), accepted)
    {
      if 0 < writeFd {
        writeFd := -1;
        num := (num - 1) % WORD;
      }
      writeFd := accepted;
      if 0 > writeFd {
      } else {
        num := (num + 1) % WORD;
      }
    }

    /** process_new_connection with no other thread in between: the callback it invokes, if any. */
    method ProcessNewConnection(accepted: int) returns (invoked: Option<(nat, nat)>)
      modifies this`writeFd, this`num
      ensures View() == Replaced(old(View()), accepted)
      ensures invoked == Greeting(old(View()))
    {
      ReplaceConnection(accepted);
      invoked := None;
      if fn != 0 {
        invoked := Some((fn, data));
      }
    }

    /** process_control_message with no other thread in between. */
    method ProcessControlMessage(message: Code) returns (invoked: Option<(nat, nat)>)
      ensures invoked == Answer(View(), message)
    {
      invoked := None;
      if message == NewCallback {
        var numConnections, callback, callbackData := num, fn, data;
        if callback != 0 && 0 != numConnections {
          invoked := Some((callback, callbackData));
        }
      }
    }

    method RegisterDataReadyCallback(callback: nat, callbackData: nat)
      modifies this`fn, this`data, this`pipe
      ensures View() == old(View()).(fn := callback, data := callbackData)
      ensures pipe == old(pipe) + Announced(callback)
    {
      fn := callback;
      data := callbackData;
      if callback != 0 {
        pipe := pipe + [NewCallback];
      }
    }
  }
}
