/** Ownership of the shared event state of `send_stream` and `recv_stream`. Each operation has a handle on
    the heap, owned by its callback, and copies of that handle held by user code; all share one event
    state, which the last of them releases. Everything runs on one thread, and calls nest: `set_or`
    resumes a coroutine, which may call `set_or` on its own handles, drop any of them, or progress the
    worker, whose callbacks call `set_or` again. */
module EndpointOps {

  datatype Status =
    | Posting
    | Pending      // UCX has a request; its callback will run once
    | Immediate    // completed without a callback: the heap handle is never deleted
    | Failed       // the callback returned on an error status: the heap handle is never deleted
    | Completing   // the callback is on the call stack
    | Completed

  /** `signaled` is the field of the shared event state, `released` counts how often that state was
      destroyed. `calls` counts the set_or calls on the call stack that user code made through its own
      copies, and `byUser` says that there ever was one. `cut`: the state was destroyed while a set_or on
      it waited for the coroutine it had resumed. `stray`: a set_or wrote to the destroyed state. */
  datatype Op = Op(status: Status, heapHandle: bool, copies: nat, signaled: bool, released: nat,
                   calls: nat, byUser: bool, cut: bool, stray: bool)

  /** What happens on the thread, in the program's own code or in a coroutine that a `set_or` resumed.
      `waiter` says whether a coroutine waits for the event, and `resumed` is what it does then. */
  datatype Act =
    | CopyHandle(k: nat)
    | DropHandle(k: nat)
    | StartOp(pending: bool)
    | Signal(k: nat, waiter: bool, resumed: seq<Act>)
    | Complete(k: nat, ok: bool, waiter: bool, resumed: seq<Act>)

  /** What can be observed: an act is begun, whether it has an effect or not; a `set_or` on operation `k`
      resumes the coroutine that waits, which does `acts`; and it gets control back. */
  datatype Entry = Began(act: Act) | Woke(k: nat, acts: seq<Act>) | Back(k: nat)

  /** `stack`: the operations whose set_or has resumed a coroutine and not returned. `log`: the history. */
  datatype State = State(ops: seq<Op>, stack: seq<nat>, log: seq<Entry>)

  function Refs(op: Op): nat {
    op.copies + if op.heapHandle then 1 else 0
  }

  // ---------------------------------------------------------------- the operations

  function SetAt(s: State, k: nat, op: Op): State
    requires k < |s.ops|
  {
    s.(ops := s.ops[k := op])
  }

  /** The last owner of the shared state destroys it. */
  function Release(s: State, k: nat): State
    requires k < |s.ops|
  {
    if Refs(s.ops[k]) == 0 then SetAt(s, k, s.ops[k].(released := s.ops[k].released + 1, cut := k in s.stack)) else s
  }

  /** A write of `set_or` to the field `signaled_`, wherever that is by now. */
  function Write(s: State, k: nat, signaled: bool): State
    requires k < |s.ops|
  {
    SetAt(s, k, if s.ops[k].released > 0 then s.ops[k].(stray := true) else s.ops[k].(signaled := signaled))
  }

  /** The event is allocated, the operation is posted, and the caller has a copy of the handle. */
  function StartStream(s: State, pending: bool): State {
    s.(ops := s.ops + [Op(if pending then Pending else Immediate, true, 1, false, 0, 0, false, false, false)])
  }

  function Copy(s: State, k: nat): State
    requires k < |s.ops|
  {
    SetAt(s, k, s.ops[k].(copies := s.ops[k].copies + 1))
  }

  function Drop(s: State, k: nat): State
    requires k < |s.ops| && s.ops[k].copies > 0
  {
    Release(SetAt(s, k, s.ops[k].(copies := s.ops[k].copies - 1)), k)
  }

  /** What any code leaves as it was. */
  ghost predicate Framed(s: State, r: State) {
    && r.stack == s.stack && |s.ops| <= |r.ops|
    && forall k | 0 <= k < |s.ops| :: r.ops[k].calls == s.ops[k].calls
  }

  function Push(s: State, k: nat, resumed: seq<Act>): State
    requires k < |s.ops|
  {
    Write(s, k, true).(stack := s.stack + [k], log := s.log + [Woke(k, resumed)])
  }

  function Pop(s: State, k: nat): State
    requires k < |s.ops| && s.stack != []
  {
    Write(s, k, false).(stack := s.stack[..|s.stack| - 1], log := s.log + [Back(k)])
  }

  /** `set_or`: refused on a signalled event; otherwise it signals and, if a coroutine waits, resumes it
      and writes again. In between, any other call may nest, on this operation or on another. */
  function SetOr(s: State, k: nat, waiter: bool, resumed: seq<Act>): (r: State)
    requires k < |s.ops|
    ensures Framed(s, r)
    decreases resumed, 1
  {
    if s.ops[k].signaled then s
    else if !waiter then Write(s, k, true)
    else Pop(RunUser(Push(s, k, resumed), resumed), k)
  }

  function Enter(s: State, k: nat): State
    requires k < |s.ops|
  {
    SetAt(s, k, s.ops[k].(calls := s.ops[k].calls + 1, byUser := true))
  }

  /** User code signals an operation's event through a copy it owns. */
  function UserSignal(s: State, k: nat, waiter: bool, resumed: seq<Act>): (r: State)
    requires k < |s.ops|
    ensures Framed(s, r)
    decreases resumed, 2
  {
    var s1 := SetOr(Enter(s, k), k, waiter, resumed);
    SetAt(s1, k, s1.ops[k].(calls := s1.ops[k].calls - 1))
  }

  /** The completion callback of a pending operation. On success: signal, delete the heap handle, free
      the request; the state is released at once if user code has no copy left, else by the last drop.
      On an error status it only returns. */
  function Callback(s: State, k: nat, ok: bool, waiter: bool, resumed: seq<Act>): (r: State)
    requires k < |s.ops|
    ensures Framed(s, r)
    decreases resumed, 2
  {
    if !ok then SetAt(s, k, s.ops[k].(status := Failed))
    else
      var s1 := SetOr(SetAt(s, k, s.ops[k].(status := Completing)), k, waiter, resumed);
      Release(SetAt(s1, k, s1.ops[k].(heapHandle := false, status := Completed)), k)
  }

  function Begin(s: State, act: Act): State {
    s.(log := s.log + [Began(act)])
  }

  /** Any code on the thread: copies, drops, new operations, signals and progress, to any depth. */
  function RunUser(s: State, acts: seq<Act>): (r: State)
    ensures Framed(s, r)
    decreases acts, 0
  {
    if acts == [] then s
    else
      var act := acts[|acts| - 1];
      var s1 := Begin(RunUser(s, acts[..|acts| - 1]), act);
      match act
      case StartOp(pending) => StartStream(s1, pending)
      case CopyHandle(k) => if k < |s1.ops| && s1.ops[k].copies > 0 then Copy(s1, k) else s1
      case DropHandle(k) => if k < |s1.ops| && s1.ops[k].copies > 0 then Drop(s1, k) else s1
      case Signal(k, waiter, resumed) =>
        if k < |s1.ops| && s1.ops[k].copies > 0 then UserSignal(s1, k, waiter, resumed) else s1
      case Complete(k, ok, waiter, resumed) =>
        if k < |s1.ops| && s1.ops[k].status.Pending? then Callback(s1, k, ok, waiter, resumed) else s1
  }

  // ---------------------------------------------------------------- the invariant

  ghost predicate OpOk(op: Op) {
    && op.released == (if Refs(op) == 0 then 1 else 0)
    && (op.heapHandle <==> !op.status.Completed?)
    && !op.status.Posting?
    && (op.signaled ==> op.byUser || op.status.Completing? || op.status.Completed?)
    && (op.calls > 0 ==> op.byUser)
    && (op.cut ==> op.released == 1 && op.byUser)
  }

  /** A `set_or` on the stack comes from the callback, or from user code. */
  ghost predicate Held(op: Op) {
    op.status.Completing? || op.calls > 0
  }

  ghost predicate Idle(op: Op) {
    !op.status.Completing? && op.calls == 0
  }

  ghost predicate OnStack(op: Op) {
    op.signaled && Held(op) && (op.released == 1 ==> op.cut)
  }

  /** Every operation on the stack is signalled, so it is there once. A destroyed state was written to
      exactly if it was destroyed with its operation on the stack, and that set_or has returned. */
  ghost predicate Valid(s: State) {
    && (forall k | 0 <= k < |s.ops| :: OpOk(s.ops[k]))
    && (forall i | 0 <= i < |s.stack| :: s.stack[i] < |s.ops| && OnStack(s.ops[s.stack[i]]))
    && (forall i, j | 0 <= i < j < |s.stack| :: s.stack[i] != s.stack[j])
    && (forall k | 0 <= k < |s.ops| :: s.ops[k].stray <==> s.ops[k].cut && k !in s.stack)
  }

  ghost predicate OpEvolves(before: Op, after: Op) {
    && (before.released == 1 ==> after == before)
    && (before.byUser ==> after.byUser)
    && after.calls == before.calls
    && (after.status == before.status
        || (before.status.Pending? && (after.status.Completed? || after.status.Failed?)))
  }

  /** Between two states, with the same calls on the stack: operations only progress, a released state
      stays as it is, and no call that started in between is still active. */
  ghost predicate Evolves(before: seq<Op>, after: seq<Op>) {
    && |before| <= |after|
    && (forall k | 0 <= k < |before| :: OpEvolves(before[k], after[k]))
    && (forall k | |before| <= k < |after| :: Idle(after[k]))
  }

  ghost predicate Keeps(s: State, r: State) {
    Valid(r) && r.stack == s.stack && Evolves(s.ops, r.ops)
  }

  lemma EvolvesTrans(a: seq<Op>, b: seq<Op>, c: seq<Op>)
    requires Evolves(a, b) && Evolves(b, c)
    ensures Evolves(a, c)
  {
  }

  /** Changing one operation that is not on the stack, or keeps its place there. */
  lemma SetAtKeeps(s: State, k: nat, op: Op)
    requires Valid(s) && k < |s.ops| && OpOk(op)
    requires k in s.stack ==> OnStack(op)
    requires op.stray <==> op.cut && k !in s.stack
    ensures Valid(SetAt(s, k, op))
    ensures OpEvolves(s.ops[k], op) ==> Evolves(s.ops, SetAt(s, k, op).ops)
  {
  }

  lemma BeginKeeps(s: State, act: Act)
    requires Valid(s)
    ensures Keeps(s, Begin(s, act))
  {
  }

  lemma StartKeeps(s: State, pending: bool)
    requires Valid(s)
    ensures Keeps(s, StartStream(s, pending))
  {
  }

  lemma CopyKeeps(s: State, k: nat)
    requires Valid(s) && k < |s.ops| && s.ops[k].copies > 0
    ensures Keeps(s, Copy(s, k))
  {
    SetAtKeeps(s, k, Copy(s, k).ops[k]);
  }

  lemma DropKeeps(s: State, k: nat)
    requires Valid(s) && k < |s.ops| && s.ops[k].copies > 0
    ensures Keeps(s, Drop(s, k))
  {
    var op := Drop(s, k).ops[k];
    assert Drop(s, k) == SetAt(s, k, op);
    SetAtKeeps(s, k, op);
  }

  /** A call of `set_or` goes onto the stack. */
  lemma PushKeeps(s: State, k: nat, resumed: seq<Act>)
    requires Valid(s) && k < |s.ops| && Held(s.ops[k]) && Refs(s.ops[k]) > 0 && !s.ops[k].signaled
    requires s.ops[k].byUser || s.ops[k].status.Completing?
    ensures Valid(Push(s, k, resumed)) && Valid(Write(s, k, true))
    ensures Evolves(s.ops, Push(s, k, resumed).ops) && Evolves(s.ops, Write(s, k, true).ops)
  {
    SetAtKeeps(s, k, s.ops[k].(signaled := true));
    assert forall i | 0 <= i < |s.stack| :: s.stack[i] != k;
  }

  /** It writes again and returns. What ran above it has destroyed the state exactly if no handle is left. */
  lemma PopKeeps(s: State, mid: State, k: nat)
    requires Valid(s) && k < |s.ops| && Refs(s.ops[k]) > 0 && k !in s.stack
    requires Valid(mid) && mid.stack == s.stack + [k] && Evolves(s.ops, mid.ops)
    ensures Keeps(s, Pop(mid, k))
    ensures Pop(mid, k).ops[k].stray <==> Refs(mid.ops[k]) == 0
    ensures Refs(mid.ops[k]) > 0 ==> !Pop(mid, k).ops[k].signaled
  {
    var r := Pop(mid, k);
    assert mid.stack[|s.stack|] == k;
    assert r.stack == s.stack;
    forall i | 0 <= i < |s.stack| ensures mid.stack[i] == s.stack[i] && s.stack[i] != k {
    }
    forall j | 0 <= j < |mid.ops| && j != k ensures j in mid.stack <==> j in s.stack {
    }
    assert OnStack(mid.ops[k]);
  }

  // ---------------------------------------------------------------- every nesting keeps it

  lemma {:induction false} SetOrKeeps(s: State, k: nat, waiter: bool, resumed: seq<Act>)
    requires Valid(s) && k < |s.ops| && Held(s.ops[k]) && Refs(s.ops[k]) > 0
    requires s.ops[k].byUser || s.ops[k].status.Completing?
    ensures Keeps(s, SetOr(s, k, waiter, resumed))
    decreases resumed, 1
  {
    if !s.ops[k].signaled {
      PushKeeps(s, k, resumed);
      if waiter {
        RunKeeps(Push(s, k, resumed), resumed);
        EvolvesTrans(s.ops, Push(s, k, resumed).ops, RunUser(Push(s, k, resumed), resumed).ops);
        PopKeeps(s, RunUser(Push(s, k, resumed), resumed), k);
      }
    }
  }

  lemma LeaveKeeps(s: State, s1: State, k: nat)
    requires Valid(s) && k < |s.ops| && s.ops[k].copies > 0 && Keeps(Enter(s, k), s1)
    ensures s1.ops[k].calls > 0 && Keeps(s, SetAt(s1, k, s1.ops[k].(calls := s1.ops[k].calls - 1)))
  {
    var op := s1.ops[k].(calls := s1.ops[k].calls - 1);
    if k in s.stack {
      assert OnStack(s.ops[k]) && OnStack(s1.ops[k]);
    }
    SetAtKeeps(s1, k, op);
  }

  lemma {:induction false} UserSignalKeeps(s: State, k: nat, waiter: bool, resumed: seq<Act>)
    requires Valid(s) && k < |s.ops| && s.ops[k].copies > 0
    ensures Keeps(s, UserSignal(s, k, waiter, resumed))
    decreases resumed, 2
  {
    var s0 := Enter(s, k);
    SetAtKeeps(s, k, s0.ops[k]);
    SetOrKeeps(s0, k, waiter, resumed);
    var s1 := SetOr(s0, k, waiter, resumed);
    LeaveKeeps(s, s1, k);
  }

  lemma CompleteKeeps(s: State, s1: State, k: nat)
    requires Valid(s) && k < |s.ops| && s.ops[k].status.Pending?
    requires Keeps(SetAt(s, k, s.ops[k].(status := Completing)), s1)
    ensures Keeps(s, Release(SetAt(s1, k, s1.ops[k].(heapHandle := false, status := Completed)), k))
  {
    var r := Release(SetAt(s1, k, s1.ops[k].(heapHandle := false, status := Completed)), k);
    assert r == SetAt(s1, k, r.ops[k]);
    if k in s.stack {
      assert OnStack(s.ops[k]) && OnStack(s1.ops[k]);
    }
    SetAtKeeps(s1, k, r.ops[k]);
  }

  lemma {:induction false} CallbackKeeps(s: State, k: nat, ok: bool, waiter: bool, resumed: seq<Act>)
    requires Valid(s) && k < |s.ops| && s.ops[k].status.Pending?
    ensures Keeps(s, Callback(s, k, ok, waiter, resumed))
    decreases resumed, 2
  {
    if !ok {
      SetAtKeeps(s, k, s.ops[k].(status := Failed));
    } else {
      var s0 := SetAt(s, k, s.ops[k].(status := Completing));
      SetAtKeeps(s, k, s0.ops[k]);
      SetOrKeeps(s0, k, waiter, resumed);
      CompleteKeeps(s, SetOr(s0, k, waiter, resumed), k);
    }
  }

  /** Any code, with signals and callbacks nested to any depth, keeps the invariant and leaves the calls on
      the stack as they were. */
  lemma {:induction false} RunKeeps(s: State, acts: seq<Act>)
    requires Valid(s)
    ensures Keeps(s, RunUser(s, acts))
    decreases acts, 0
  {
    if acts != [] {
      hide Valid, Evolves;
      var s0 := RunUser(s, acts[..|acts| - 1]);
      var s1 := Begin(s0, acts[|acts| - 1]);
      RunKeeps(s, acts[..|acts| - 1]);
      BeginKeeps(s0, acts[|acts| - 1]);
      EvolvesTrans(s.ops, s0.ops, s1.ops);
      match acts[|acts| - 1] {
        case StartOp(pending) => StartKeeps(s1, pending);
        case CopyHandle(k) => if k < |s1.ops| && s1.ops[k].copies > 0 { CopyKeeps(s1, k); }
        case DropHandle(k) => if k < |s1.ops| && s1.ops[k].copies > 0 { DropKeeps(s1, k); }
        case Signal(k, waiter, resumed) =>
          if k < |s1.ops| && s1.ops[k].copies > 0 { UserSignalKeeps(s1, k, waiter, resumed); }
        case Complete(k, ok, waiter, resumed) =>
          if k < |s1.ops| && s1.ops[k].status.Pending? { CallbackKeeps(s1, k, ok, waiter, resumed); }
      }
      EvolvesTrans(s.ops, s1.ops, RunUser(s, acts).ops);
    }
  }

  // ---------------------------------------------------------------- what follows

  /** The second write of a `set_or` finds the state alive if and only if a handle is left when the resumed
      code returns. For the callback's own call that is always so. */
  lemma SecondWriteAliveIff(s: State, k: nat, resumed: seq<Act>)
    requires Valid(s) && k < |s.ops| && Held(s.ops[k]) && Refs(s.ops[k]) > 0 && !s.ops[k].signaled
    requires s.ops[k].byUser || s.ops[k].status.Completing?
    ensures !SetOr(s, k, true, resumed).ops[k].stray <==> Refs(RunUser(Push(s, k, resumed), resumed).ops[k]) > 0
    ensures s.ops[k].status.Completing? ==> !SetOr(s, k, true, resumed).ops[k].stray
  {
    PushKeeps(s, k, resumed);
    RunKeeps(Push(s, k, resumed), resumed);
    EvolvesTrans(s.ops, Push(s, k, resumed).ops, RunUser(Push(s, k, resumed), resumed).ops);
    PopKeeps(s, RunUser(Push(s, k, resumed), resumed), k);
  }

  /** Nothing is active: the program is in its own code, outside every `set_or` and every callback. */
  ghost predicate AtRest(s: State) {
    Valid(s) && s.stack == [] && forall k | 0 <= k < |s.ops| :: Idle(s.ops[k])
  }

  /** Any program. The state of an operation is released exactly when its callback has succeeded and every
      copy is gone, and once; one that completed without a callback, or whose callback failed, is never
      released, and only user code itself can have signalled it. A destroyed state is written to exactly
      if it was destroyed while its own `set_or` waited for a coroutine. */
  lemma AnyProgram(s: State, acts: seq<Act>)
    requires AtRest(s)
    ensures var r := RunUser(s, acts);
            && AtRest(r) && Evolves(s.ops, r.ops)
            && (forall k | 0 <= k < |r.ops| ::
                  && r.ops[k].released == (if r.ops[k].status.Completed? && r.ops[k].copies == 0 then 1 else 0)
                  && (!r.ops[k].status.Completed? && r.ops[k].signaled ==> r.ops[k].byUser)
                  && (r.ops[k].stray <==> r.ops[k].cut))
  {
    RunKeeps(s, acts);
  }

  /** Once the last reference is gone nothing brings the state back or destroys it again. */
  lemma {:induction false} ReleasedOnce(history: seq<seq<Op>>, i: nat, j: nat, k: nat)
    requires forall n | 0 <= n < |history| - 1 :: Evolves(history[n], history[n + 1])
    requires i <= j < |history| && k < |history[i]| && history[i][k].released == 1
    ensures k < |history[j]| && history[j][k] == history[i][k]
    decreases j
  {
    if i < j {
      ReleasedOnce(history, i, j - 1, k);
      assert Evolves(history[j - 1], history[j]);
    }
  }

  // ---------------------------------------------------------------- careful programs

  /** No handle of an operation is dropped inside a `set_or` that user code calls on that operation.
      `active`: the operations user code is signalling. */
  predicate Careful(acts: seq<Act>, active: set<nat>)
    decreases acts
  {
    forall i | 0 <= i < |acts| ::
      match acts[i]
      case DropHandle(k) => k !in active
      case Signal(k, waiter, resumed) => Careful(resumed, active + {k})
      case Complete(k, ok, waiter, resumed) => Careful(resumed, active)
      case _ => true
  }

  /** The operations of `active` keep a copy, and no set_or that starts in between writes to a destroyed state. */
  ghost predicate Safe(s: State, r: State, active: set<nat>) {
    && Framed(s, r)
    && (forall k | k in active && k < |s.ops| && s.ops[k].copies > 0 :: r.ops[k].copies > 0)
    && (forall k | 0 <= k < |r.ops| && r.ops[k].stray :: k < |s.ops| && s.ops[k].stray)
  }

  lemma SafeTrans(a: State, b: State, c: State, active: set<nat>)
    requires Safe(a, b, active) && Safe(b, c, active)
    ensures Safe(a, c, active)
  {
  }

  lemma SmallStepsSafe(s: State, k: nat, pending: bool, active: set<nat>)
    ensures Safe(s, StartStream(s, pending), active)
    ensures k < |s.ops| ==> Safe(s, Copy(s, k), active)
    ensures k < |s.ops| && s.ops[k].copies > 0 && k !in active ==> Safe(s, Drop(s, k), active)
  {
  }

  lemma {:induction false} SetOrSafe(s: State, k: nat, waiter: bool, resumed: seq<Act>, active: set<nat>)
    requires Valid(s) && k < |s.ops| && Held(s.ops[k]) && Refs(s.ops[k]) > 0
    requires s.ops[k].status.Completing? || (s.ops[k].byUser && k in active && s.ops[k].copies > 0)
    requires Careful(resumed, active)
    ensures Safe(s, SetOr(s, k, waiter, resumed), active)
    decreases resumed, 1
  {
    if !s.ops[k].signaled {
      PushKeeps(s, k, resumed);
      if waiter {
        var mid := RunUser(Push(s, k, resumed), resumed);
        RunKeeps(Push(s, k, resumed), resumed);
        RunSafe(Push(s, k, resumed), resumed, active);
        assert Refs(mid.ops[k]) > 0;
      }
    }
  }

  lemma {:induction false} UserSignalSafe(s: State, k: nat, waiter: bool, resumed: seq<Act>, active: set<nat>)
    requires Valid(s) && k < |s.ops| && s.ops[k].copies > 0 && Careful(resumed, active + {k})
    ensures Safe(s, UserSignal(s, k, waiter, resumed), active)
    decreases resumed, 2
  {
    var s0 := Enter(s, k);
    SetAtKeeps(s, k, s0.ops[k]);
    SetOrSafe(s0, k, waiter, resumed, active + {k});
  }

  lemma {:induction false} CallbackSafe(s: State, k: nat, ok: bool, waiter: bool, resumed: seq<Act>, active: set<nat>)
    requires Valid(s) && k < |s.ops| && s.ops[k].status.Pending? && Careful(resumed, active)
    ensures Safe(s, Callback(s, k, ok, waiter, resumed), active)
    decreases resumed, 2
  {
    if ok {
      var s0 := SetAt(s, k, s.ops[k].(status := Completing));
      SetAtKeeps(s, k, s0.ops[k]);
      SetOrSafe(s0, k, waiter, resumed, active);
    }
  }

  lemma {:induction false} RunSafe(s: State, acts: seq<Act>, active: set<nat>)
    requires Valid(s) && Careful(acts, active)
    ensures Safe(s, RunUser(s, acts), active)
    decreases acts, 0
  {
    if acts != [] {
      var n := |acts| - 1;
      var s1 := Begin(RunUser(s, acts[..n]), acts[n]);
      RunKeeps(s, acts[..n]);
      assert Careful(acts[..n], active) by {
        forall i | 0 <= i < n ensures acts[..n][i] == acts[i] { }
      }
      RunSafe(s, acts[..n], active);
      match acts[n] {
        case StartOp(pending) => SmallStepsSafe(s1, 0, pending, active);
        case CopyHandle(k) => SmallStepsSafe(s1, k, true, active);
        case DropHandle(k) => SmallStepsSafe(s1, k, true, active);
        case Signal(k, waiter, resumed) =>
          if k < |s1.ops| && s1.ops[k].copies > 0 { UserSignalSafe(s1, k, waiter, resumed, active); }
        case Complete(k, ok, waiter, resumed) =>
          if k < |s1.ops| && s1.ops[k].status.Pending? { CallbackSafe(s1, k, ok, waiter, resumed, active); }
      }
      SafeTrans(s, s1, RunUser(s, acts), active);
    }
  }

  /** A careful program never makes a `set_or` write to a destroyed state. */
  lemma CarefulNeverStray(s: State, acts: seq<Act>)
    requires Valid(s) && Careful(acts, {})
    ensures var r := RunUser(s, acts);
            forall k | 0 <= k < |r.ops| && r.ops[k].stray :: k < |s.ops| && s.ops[k].stray
  {
    RunSafe(s, acts, {});
  }

  // ---------------------------------------------------------------- a careless one

  /** The last handle goes while the set_or called through it waits: the callback of the operation runs
      inside, deletes the heap handle, and then user code drops its only copy. */
  function LoseOwnHandle(k: nat): seq<Act> {
    [Complete(k, true, false, []), DropHandle(k)]
  }

  lemma LosesOwnHandle(s: State, k: nat)
    requires k < |s.ops| && s.ops[k].status.Pending? && s.ops[k].heapHandle && s.ops[k].copies == 1
    requires s.ops[k].signaled && s.ops[k].released == 0 && k in s.stack
    ensures var r := RunUser(s, LoseOwnHandle(k)); r.ops[k].released == 1 && r.ops[k].cut && r.stack == s.stack
  {
    var acts := LoseOwnHandle(k);
    assert acts[..1] == [acts[0]] && acts[..1][..0] == [];
    assert RunUser(s, acts[..1]) == Callback(Begin(s, acts[0]), k, true, false, []);
    assert RunUser(s, acts) == Drop(Begin(Callback(Begin(s, acts[0]), k, true, false, []), acts[1]), k);
  }

  /** From any state: start an operation that stays pending, and signal it while a coroutine waits that
      loses the handle. The set_or then writes to the destroyed state. */
  lemma CarelessStrays(s: State)
    ensures var k := |s.ops|; var r := RunUser(s, [StartOp(true), Signal(k, true, LoseOwnHandle(k))]);
            k < |r.ops| && r.ops[k].stray
  {
    var k := |s.ops|;
    var acts := [StartOp(true), Signal(k, true, LoseOwnHandle(k))];
    assert acts[..1] == [acts[0]] && acts[..1][..0] == [];
    var s1 := Begin(StartStream(Begin(s, acts[0]), true), acts[1]);
    assert RunUser(s, acts[..1]) == StartStream(Begin(s, acts[0]), true);
    var p := Push(Enter(s1, k), k, LoseOwnHandle(k));
    assert p.stack[|s.stack|] == k;
    LosesOwnHandle(p, k);
    assert SetOr(Enter(s1, k), k, true, LoseOwnHandle(k)) == Pop(RunUser(p, LoseOwnHandle(k)), k);
    assert RunUser(s, acts) == UserSignal(s1, k, true, LoseOwnHandle(k));
  }
}
