/** `send_stream`, `recv_stream`, their callbacks and `set_or` in the code's own form: the operations are
    objects in place, and each call is proved to compute what `EndpointOps` specifies. */
module EndpointRuntime {
  import opened EndpointOps
  import opened EndpointHistory

  class Endpoint {
    var ops: seq<Op>
    var stack: seq<nat>       // operations whose set_or has resumed a coroutine and not returned
    var log: seq<Entry>

    function View(): State
      reads this
    {
      State(ops, stack, log)
    }

    constructor ()
      ensures AtRest(View()) && Told(View()) && View() == State([], [], [])
    {
      ops, stack, log := [], [], [];
    }

    /** The last owner of the shared state destroys it. */
    method ReleaseHandle(k: nat)
      requires k < |ops|
      modifies this`ops
      ensures View() == Release(old(View()), k)
    {
      if Refs(ops[k]) == 0 {
        ops := ops[k := ops[k].(released := ops[k].released + 1, cut := k in stack)];
      }
    }

    /** Allocates the event, posts the operation and returns a copy of the handle. */
    method StartOperation(pending: bool) returns (k: nat)
      modifies this`ops
      ensures View() == StartStream(old(View()), pending) && k == |old(ops)|
    {
      k := |ops|;
      ops := ops + [Op(Posting, true, 0, false, 0, 0, false, false, false)];
      ops := ops[k := ops[k].(status := if pending then Pending else Immediate)];
      ops := ops[k := ops[k].(copies := 1)];
    }

    method CopyHandle(k: nat)
      requires k < |ops|
      modifies this`ops
      ensures View() == Copy(old(View()), k)
    {
      ops := ops[k := ops[k].(copies := ops[k].copies + 1)];
    }

    method DropHandle(k: nat)
      requires k < |ops| && ops[k].copies > 0
      modifies this`ops
      ensures View() == Drop(old(View()), k)
    {
      ops := ops[k := ops[k].(copies := ops[k].copies - 1)];
      ReleaseHandle(k);
    }

    /** A write of `set_or` to the shared event state. */
    method WriteSignaled(k: nat, signaled: bool)
      requires k < |ops|
      modifies this`ops
      ensures View() == Write(old(View()), k, signaled)
    {
      if ops[k].released > 0 {
        ops := ops[k := ops[k].(stray := true)];
      } else {
        ops := ops[k := ops[k].(signaled := signaled)];
      }
    }

    method SetOr(k: nat, waiter: bool, resumed: seq<Act>)
      requires k < |ops|
      modifies this
      ensures View() == EndpointOps.SetOr(old(View()), k, waiter, resumed)
      decreases resumed, 1
    {
      if ops[k].signaled {
        return;
      }
      WriteSignaled(k, true);
      if waiter {
        stack, log := stack + [k], log + [Woke(k, resumed)];
        RunUser(resumed);
        WriteSignaled(k, false);
        stack, log := stack[..|stack| - 1], log + [Back(k)];
      }
    }

    /** User code signals an operation's event through a copy it owns. */
    method UserSignal(k: nat, waiter: bool, resumed: seq<Act>)
      requires k < |ops| && ops[k].copies > 0
      modifies this
      ensures View() == EndpointOps.UserSignal(old(View()), k, waiter, resumed)
      decreases resumed, 2
    {
      ops := ops[k := ops[k].(calls := ops[k].calls + 1, byUser := true)];
      SetOr(k, waiter, resumed);
      ops := ops[k := ops[k].(calls := ops[k].calls - 1)];
    }

    /** The completion callback of a pending operation. */
    method Callback(k: nat, ok: bool, waiter: bool, resumed: seq<Act>)
      requires k < |ops| && ops[k].status.Pending?
      modifies this
      ensures View() == EndpointOps.Callback(old(View()), k, ok, waiter, resumed)
      decreases resumed, 2
    {
      if !ok {
        ops := ops[k := ops[k].(status := Failed)];
        return;
      }
      ops := ops[k := ops[k].(status := Completing)];
      SetOr(k, waiter, resumed);
      ops := ops[k := ops[k].(heapHandle := false, status := Completed)];
      ReleaseHandle(k);
    }

    /** Any code on the thread: copies, drops, new operations, signals and progress, to any depth. */
    method RunUser(acts: seq<Act>)
      modifies this
      ensures View() == EndpointOps.RunUser(old(View()), acts)
      decreases acts, 0
    {
      for i := 0 to |acts|
        invariant View() == EndpointOps.RunUser(old(View()), acts[..i])
      {
        assert acts[..i + 1][..i] == acts[..i];
        log := log + [Began(acts[i])];
        match acts[i]
        case StartOp(pending) =>
          var k := StartOperation(pending);
        case CopyHandle(k) =>
          if k < |ops| && ops[k].copies > 0 {
            CopyHandle(k);
          }
        case DropHandle(k) =>
          if k < |ops| && ops[k].copies > 0 {
            DropHandle(k);
          }
        case Signal(k, waiter, resumed) =>
          if k < |ops| && ops[k].copies > 0 {
            UserSignal(k, waiter, resumed);
          }
        case Complete(k, ok, waiter, resumed) =>
          if k < |ops| && ops[k].status.Pending? {
            Callback(k, ok, waiter, resumed);
          }
      }
      assert acts[..|acts|] == acts;
    }

    /** Any program. A careful one never makes a `set_or` write to a destroyed state. */
    method RunProgram(acts: seq<Act>)
      requires AtRest(View())
      modifies this
      ensures AtRest(View()) && Evolves(old(ops), ops)
      ensures old(Told(View())) ==> Told(View()) && Retell(log).base == Retell(old(log)).base + acts
      ensures forall k | 0 <= k < |ops| ::
                ops[k].released == if ops[k].status.Completed? && ops[k].copies == 0 then 1 else 0
      ensures forall k | 0 <= k < |ops| && !ops[k].status.Completed? && ops[k].signaled :: ops[k].byUser
      ensures forall k | 0 <= k < |ops| :: ops[k].stray <==> ops[k].cut
      ensures Careful(acts, {}) ==> forall k | 0 <= k < |ops| && ops[k].stray :: k < |old(ops)| && old(ops)[k].stray
    {
      AnyProgram(View(), acts);
      if Told(View()) {
        ProgramTold(View(), acts);
      }
      if Careful(acts, {}) {
        CarefulNeverStray(View(), acts);
      }
      RunUser(acts);
    }
  }
}
