/** What the history of `EndpointOps` must look like, told without its operations: which acts count, who is
    signalled, which waiters are resumed and what they do; and the proof that every program tells that story. */
module EndpointHistory {
  import opened Common
  import opened EndpointOps

  /** An operation as its history tells it. `completion` is the act that completed it, `signaled` whether
      its event holds a value, `woken` how often a waiter of its event was resumed. */
  datatype Flat = Flat(pending: bool, copies: nat, completion: Option<Act>, byUser: bool, signaled: bool, woken: nat)

  /** A resumed coroutine: the operation whose event resumed it, and the acts it still has to do. */
  datatype Frame = Frame(k: nat, acts: seq<Act>)

  /** `frames`: the resumed coroutines that have not given control back. `base`: the acts begun outside of
      all of them. `owed`: the coroutine that must be resumed next. */
  datatype Story = Story(ops: seq<Flat>, frames: seq<Frame>, base: seq<Act>, owed: Option<Frame>)

  // ---------------------------------------------------------------- telling a history

  predicate HasCopy(ops: seq<Flat>, k: nat) {
    k < |ops| && ops[k].copies > 0
  }

  predicate IsPending(ops: seq<Flat>, k: nat) {
    k < |ops| && ops[k].pending && ops[k].completion.None?
  }

  /** An act has an effect on operations that are there: on a copy the program has, or on a pending one. */
  function TellAct(ops: seq<Flat>, act: Act): seq<Flat> {
    match act
    case StartOp(pending) => ops + [Flat(pending, 1, None, false, false, 0)]
    case CopyHandle(k) => if HasCopy(ops, k) then ops[k := ops[k].(copies := ops[k].copies + 1)] else ops
    case DropHandle(k) => if HasCopy(ops, k) then ops[k := ops[k].(copies := ops[k].copies - 1)] else ops
    case Signal(k, _, _) => if HasCopy(ops, k) then ops[k := ops[k].(byUser := true, signaled := true)] else ops
    case Complete(k, ok, _, _) =>
      if IsPending(ops, k) then ops[k := ops[k].(completion := Some(act), signaled := ops[k].signaled || ok)] else ops
  }

  /** The coroutine an act resumes: an event that is signalled now, and was not, has a waiter. */
  function Wakes(ops: seq<Flat>, act: Act): Option<Frame> {
    match act
    case Signal(k, true, resumed) =>
      if HasCopy(ops, k) && !ops[k].signaled then Some(Frame(k, resumed)) else None
    case Complete(k, true, true, resumed) =>
      if IsPending(ops, k) && !ops[k].signaled then Some(Frame(k, resumed)) else None
    case _ => None
  }

  function Tell(t: Story, x: Entry): Story {
    match x
    case Began(act) =>
      var ops, owed := TellAct(t.ops, act), Wakes(t.ops, act);
      if t.frames == [] then Story(ops, [], t.base + [act], owed)
      else
        var n := |t.frames| - 1;
        var left := if t.frames[n].acts == [] then [] else t.frames[n].acts[1..];
        Story(ops, t.frames[n := Frame(t.frames[n].k, left)], t.base, owed)
    case Woke(k, acts) =>
      var ops := if k < |t.ops| then t.ops[k := t.ops[k].(woken := t.ops[k].woken + 1)] else t.ops;
      Story(ops, t.frames + [Frame(k, acts)], t.base, None)
    case Back(k) =>
      var ops := if k < |t.ops| then t.ops[k := t.ops[k].(signaled := false)] else t.ops;
      Story(ops, if t.frames == [] then [] else t.frames[..|t.frames| - 1], t.base, None)
  }

  /** An entry that may come next: what is owed, and otherwise the next act of the coroutine that runs, or
      its end when it has done all. */
  ghost predicate Fits(t: Story, x: Entry) {
    match x
    case Began(act) =>
      && t.owed.None?
      && (t.frames != [] ==> t.frames[|t.frames| - 1].acts != [] && t.frames[|t.frames| - 1].acts[0] == act)
    case Woke(k, acts) => t.owed == Some(Frame(k, acts))
    case Back(k) => t.owed.None? && t.frames != [] && t.frames[|t.frames| - 1] == Frame(k, [])
  }

  function Retell(log: seq<Entry>): Story {
    if log == [] then Story([], [], [], None) else Tell(Retell(log[..|log| - 1]), log[|log| - 1])
  }

  ghost predicate Faithful(log: seq<Entry>) {
    forall i | 0 <= i < |log| :: Fits(Retell(log[..i]), log[i])
  }

  lemma Snoc(log: seq<Entry>, x: Entry)
    ensures Retell(log + [x]) == Tell(Retell(log), x)
    ensures Faithful(log) && Fits(Retell(log), x) ==> Faithful(log + [x])
  {
    var l := log + [x];
    assert l[..|log|] == log;
    if Faithful(log) && Fits(Retell(log), x) {
      forall i | 0 <= i < |l| ensures Fits(Retell(l[..i]), l[i]) {
        assert i < |log| ==> l[..i] == log[..i];
      }
    }
  }

  // ---------------------------------------------------------------- state and history

  /** The history decides the fields of an operation. One that user code never signalled has been signalled
      by its successful completion alone, and then the event holds the value or has resumed its waiter once. */
  ghost predicate OpTold(op: Op, f: Flat, onStack: bool) {
    && op.copies == f.copies && op.byUser == f.byUser
    && (op.status.Immediate? <==> !f.pending)
    && (op.status.Pending? <==> f.pending && f.completion.None?)
    && (f.completion.Some? ==> f.completion.value.Complete? && f.pending)
    && (op.status.Failed? <==> f.completion.Some? && !f.completion.value.ok)
    && (!op.cut ==> op.signaled == f.signaled)
    && (!f.byUser ==>
          if f.completion.None? || !f.completion.value.ok then !f.signaled && f.woken == 0 && !onStack
          else if f.completion.value.waiter then f.woken == 1 && (f.signaled <==> onStack)
          else f.woken == 0 && f.signaled && !onStack)
  }

  ghost predicate FramesTold(stack: seq<nat>, frames: seq<Frame>) {
    |frames| == |stack| && forall i | 0 <= i < |frames| :: frames[i].k == stack[i]
  }

  ghost predicate OpsTold(s: State, ops: seq<Flat>, but: int) {
    |s.ops| == |ops| && forall k | 0 <= k < |ops| && k != but :: OpTold(s.ops[k], ops[k], k in s.stack)
  }

  ghost predicate Told(s: State) {
    && Faithful(s.log)
    && var t := Retell(s.log);
       t.owed.None? && FramesTold(s.stack, t.frames) && OpsTold(s, t.ops, -1)
  }

  /** A stretch of the program that leaves the coroutines as they were, in frame and base. */
  ghost predicate SameFrames(s: State, r: State) {
    Retell(r.log).frames == Retell(s.log).frames && Retell(r.log).base == Retell(s.log).base
  }

  /** The coroutine that runs, if any, has `acts` before it, and then `rest`. */
  ghost predicate Expects(t: Story, acts: seq<Act>, rest: seq<Act>) {
    t.frames != [] ==> t.frames[|t.frames| - 1].acts == acts + rest
  }

  /** It has done `acts`: they are gone from its frame, or they were added to those of the program. */
  ghost predicate HasDone(t: Story, u: Story, acts: seq<Act>, rest: seq<Act>) {
    if t.frames == [] then
      u.frames == [] && u.base == t.base + acts
    else
      var n := |t.frames| - 1;
      u.base == t.base && u.frames == t.frames[n := Frame(t.frames[n].k, rest)]
  }

  /** After `act` was begun and before it has had its effect on operation `k`. */
  ghost predicate Begun(s0: State, s: State, act: Act, rest: seq<Act>) {
    && Told(s0) && s == Begin(s0, act) && Faithful(s.log) && Expects(Retell(s0.log), [act], rest)
    && Retell(s.log) == Tell(Retell(s0.log), Began(act))
    && FramesTold(s.stack, Retell(s.log).frames) && HasDone(Retell(s0.log), Retell(s.log), [act], rest)
  }

  lemma BeginTold(s0: State, act: Act, rest: seq<Act>)
    requires Told(s0) && Expects(Retell(s0.log), [act], rest)
    ensures Begun(s0, Begin(s0, act), act, rest)
  {
    Snoc(s0.log, Began(act));
  }

  /** One operation changed, in the state and in the history. */
  lemma OpsChange(s: State, r: State, ops: seq<Flat>, k: nat, f: Flat)
    requires OpsTold(s, ops, k) && k < |ops| && r.stack == s.stack && |r.ops| == |s.ops|
    requires forall j | 0 <= j < |s.ops| && j != k :: r.ops[j] == s.ops[j]
    ensures OpTold(r.ops[k], f, k in r.stack) ==> OpsTold(r, ops[k := f], -1)
    ensures OpsTold(r, ops[k := f], k)
  {
  }

  /** What is known once an act has begun. */
  lemma BegunFacts(s0: State, act: Act, rest: seq<Act>)
    requires Begun(s0, Begin(s0, act), act, rest)
    ensures var s, ops := Begin(s0, act), Retell(s0.log).ops;
            && Faithful(s.log) && FramesTold(s.stack, Retell(s.log).frames) && OpsTold(s0, ops, -1)
            && Retell(s.log).ops == TellAct(ops, act) && Retell(s.log).owed == Wakes(ops, act)
  {
  }

  lemma AliveIsNotCut(s: State, k: nat)
    requires Valid(s) && k < |s.ops| && Refs(s.ops[k]) > 0
    ensures s.ops[k].released == 0 && !s.ops[k].cut
  {
  }

  lemma StackInRange(s: State)
    requires Valid(s)
    ensures forall i | 0 <= i < |s.stack| :: s.stack[i] < |s.ops|
  {
  }

  lemma StartTold(s0: State, pending: bool, rest: seq<Act>)
    requires Valid(s0) && Begun(s0, Begin(s0, StartOp(pending)), StartOp(pending), rest)
    ensures Told(StartStream(Begin(s0, StartOp(pending)), pending))
  {
    StackInRange(s0);
    BegunFacts(s0, StartOp(pending), rest);
    hide Begun, Faithful, Retell, FramesTold, Valid;
    var s := Begin(s0, StartOp(pending));
    var ops := Retell(s0.log).ops;
    assert Retell(s.log).ops == ops + [Flat(pending, 1, None, false, false, 0)];
    assert |ops| !in s.stack;
    assert OpsTold(StartStream(s, pending), Retell(s.log).ops, -1);
  }

  lemma CopyTold(s0: State, k: nat, rest: seq<Act>)
    requires Valid(s0) && Begun(s0, Begin(s0, CopyHandle(k)), CopyHandle(k), rest)
    requires k < |s0.ops| && s0.ops[k].copies > 0
    ensures Told(Copy(Begin(s0, CopyHandle(k)), k))
  {
    BegunFacts(s0, CopyHandle(k), rest);
    AliveIsNotCut(s0, k);
    hide Begun, Faithful, Retell, FramesTold, Valid;
    var s := Begin(s0, CopyHandle(k));
    OpsChange(s0, Copy(s, k), Retell(s0.log).ops, k, Retell(s.log).ops[k]);
  }

  lemma DropTold(s0: State, k: nat, rest: seq<Act>)
    requires Valid(s0) && Begun(s0, Begin(s0, DropHandle(k)), DropHandle(k), rest)
    requires k < |s0.ops| && s0.ops[k].copies > 0
    ensures Told(Drop(Begin(s0, DropHandle(k)), k))
  {
    BegunFacts(s0, DropHandle(k), rest);
    AliveIsNotCut(s0, k);
    hide Begun, Faithful, Retell, FramesTold, Valid;
    var s := Begin(s0, DropHandle(k));
    OpsChange(s0, Drop(s, k), Retell(s0.log).ops, k, Retell(s.log).ops[k]);
  }

  /** The act finds nothing to work on. */
  ghost predicate Idles(s: State, act: Act) {
    match act
    case StartOp(_) => false
    case Complete(k, _, _, _) => !(k < |s.ops| && s.ops[k].status.Pending?)
    case _ => !(act.k < |s.ops| && s.ops[act.k].copies > 0)
  }

  lemma IdleTold(s0: State, act: Act, rest: seq<Act>)
    requires Begun(s0, Begin(s0, act), act, rest) && Idles(s0, act)
    ensures Told(Begin(s0, act))
  {
    assert Retell(Begin(s0, act).log).ops == Retell(s0.log).ops;
  }

  // ---------------------------------------------------------------- set_or

  /** A `set_or` on operation `k` is about to begin: the history has it signalled already, the state not. */
  ghost predicate Poised(s: State, k: nat, waiter: bool, resumed: seq<Act>) {
    && k < |s.ops| && Faithful(s.log)
    && var t := Retell(s.log);
       && FramesTold(s.stack, t.frames) && OpsTold(s, t.ops, k)
       && var op, f := s.ops[k], t.ops[k];
          && t.owed == (if waiter && !op.signaled then Some(Frame(k, resumed)) else None)
          && op.copies == f.copies && op.byUser == f.byUser && !op.cut && f.signaled && op.released == 0
          && (op.status.Immediate? <==> !f.pending)
          && (op.status.Pending? <==> f.pending && f.completion.None?)
          && (f.completion.Some? ==> f.completion.value.Complete? && f.pending)
          && (op.status.Failed? <==> f.completion.Some? && !f.completion.value.ok)
          && (!f.byUser ==>
                && f.completion.Some? && f.completion.value.ok && f.completion.value.waiter == waiter
                && f.woken == 0 && !op.signaled && k !in s.stack)
  }

  lemma PushTold(s: State, k: nat, resumed: seq<Act>)
    requires Poised(s, k, true, resumed) && !s.ops[k].signaled
    ensures var p := Push(s, k, resumed);
            && Told(p) && Retell(p.log).base == Retell(s.log).base
            && Retell(p.log).frames == Retell(s.log).frames + [Frame(k, resumed)]
  {
    var p := Push(s, k, resumed);
    Snoc(s.log, Woke(k, resumed));
    forall j | 0 <= j < |s.ops| && j != k ensures j in p.stack <==> j in s.stack {
    }
    assert p.stack[|s.stack|] == k;
  }

  lemma PopTold(s: State, mid: State, k: nat)
    requires Valid(mid) && Told(mid) && k < |mid.ops| && mid.stack == s.stack + [k] && k !in s.stack
    requires Retell(mid.log).base == Retell(s.log).base
    requires Retell(mid.log).frames == Retell(s.log).frames + [Frame(k, [])]
    ensures Told(Pop(mid, k)) && SameFrames(s, Pop(mid, k))
  {
    var r := Pop(mid, k);
    var t := Retell(mid.log);
    Snoc(mid.log, Back(k));
    assert mid.stack[|s.stack|] == k && r.stack == s.stack;
    assert t.frames[..|t.frames| - 1] == Retell(s.log).frames;
    forall j | 0 <= j < |mid.ops| && j != k ensures j in mid.stack <==> j in r.stack {
    }
    forall i | 0 <= i < |r.stack| ensures r.stack[i] == mid.stack[i] {
    }
    assert OnStack(mid.ops[k]);
  }

  lemma AtOnceTold(s: State, k: nat, waiter: bool, resumed: seq<Act>)
    requires Poised(s, k, waiter, resumed) && (s.ops[k].signaled || !waiter)
    ensures Told(if s.ops[k].signaled then s else Write(s, k, true))
  {
    var r := if s.ops[k].signaled then s else Write(s, k, true);
    var ops := Retell(s.log).ops;
    OpsChange(s, r, ops, k, ops[k]);
    assert ops[k := ops[k]] == ops;
  }

  lemma StackTop(s: State, k: nat)
    requires Valid(s) && k < |s.ops| && !s.ops[k].signaled
    ensures k !in s.stack
  {
  }

  lemma ExpectsAll(t: Story, u: Story, k: nat, resumed: seq<Act>)
    requires u.frames == t.frames + [Frame(k, resumed)]
    ensures Expects(u, resumed, [])
  {
    assert resumed + [] == resumed;
  }

  lemma AfterResumed(s: State, p: State, mid: State, k: nat, resumed: seq<Act>)
    requires Retell(p.log).frames == Retell(s.log).frames + [Frame(k, resumed)]
    requires HasDone(Retell(p.log), Retell(mid.log), resumed, [])
    ensures Retell(mid.log).frames == Retell(s.log).frames + [Frame(k, [])]
    ensures Retell(mid.log).base == Retell(p.log).base
  {
  }

  /** The coroutine that is resumed does its acts, and then control comes back. */
  lemma {:induction false} WokenTold(s: State, k: nat, resumed: seq<Act>)
    requires Valid(s) && k < |s.ops| && Poised(s, k, true, resumed) && Held(s.ops[k]) && Refs(s.ops[k]) > 0
    requires (s.ops[k].byUser || s.ops[k].status.Completing?) && !s.ops[k].signaled
    ensures var mid := RunUser(Push(s, k, resumed), resumed);
            && k < |mid.ops| && mid.stack == s.stack + [k] && Valid(mid) && Told(mid)
            && Retell(mid.log).base == Retell(s.log).base
            && Retell(mid.log).frames == Retell(s.log).frames + [Frame(k, [])]
    decreases resumed, 2
  {
    hide Told, Poised, HasDone, Retell, RunUser, Valid, Evolves;
    var p := Push(s, k, resumed);
    PushKeeps(s, k, resumed);
    PushTold(s, k, resumed);
    RunKeeps(p, resumed);
    ExpectsAll(Retell(s.log), Retell(p.log), k, resumed);
    RunTold(p, resumed, []);
    AfterResumed(s, p, RunUser(p, resumed), k, resumed);
  }

  lemma {:induction false} SetOrTold(s: State, k: nat, waiter: bool, resumed: seq<Act>)
    requires Valid(s) && Poised(s, k, waiter, resumed) && Held(s.ops[k]) && Refs(s.ops[k]) > 0
    requires s.ops[k].byUser || s.ops[k].status.Completing?
    ensures var r := SetOr(s, k, waiter, resumed); Told(r) && SameFrames(s, r)
    decreases resumed, 3
  {
    hide Told, RunUser, Valid;
    if s.ops[k].signaled || !waiter {
      AtOnceTold(s, k, waiter, resumed);
    } else {
      StackTop(s, k);
      WokenTold(s, k, resumed);
      PopTold(s, RunUser(Push(s, k, resumed), resumed), k);
    }
  }

  // ---------------------------------------------------------------- programs

  lemma EnterPoised(s0: State, k: nat, waiter: bool, resumed: seq<Act>, rest: seq<Act>)
    requires Valid(s0) && k < |s0.ops| && s0.ops[k].copies > 0
    requires var act := Signal(k, waiter, resumed); Begun(s0, Begin(s0, act), act, rest)
    ensures Poised(Enter(Begin(s0, Signal(k, waiter, resumed)), k), k, waiter, resumed)
  {
    BegunFacts(s0, Signal(k, waiter, resumed), rest);
    AliveIsNotCut(s0, k);
    hide Begun, Faithful, Retell, FramesTold, Valid;
    var s := Begin(s0, Signal(k, waiter, resumed));
    OpsChange(s0, Enter(s, k), Retell(s0.log).ops, k, Retell(s.log).ops[k]);
  }

  lemma LeaveTold(s: State, k: nat, op: Op)
    requires Told(s) && k < |s.ops| && OpTold(op, Retell(s.log).ops[k], k in s.stack)
    ensures Told(SetAt(s, k, op))
  {
    OpsChange(s, SetAt(s, k, op), Retell(s.log).ops, k, Retell(s.log).ops[k]);
    assert Retell(s.log).ops == Retell(s.log).ops[k := Retell(s.log).ops[k]];
  }

  lemma TellsOf(s: State, k: nat)
    requires Told(s) && k < |s.ops|
    ensures k < |Retell(s.log).ops| && OpTold(s.ops[k], Retell(s.log).ops[k], k in s.stack)
  {
  }

  lemma {:induction false} UserSignalTold(s0: State, k: nat, waiter: bool, resumed: seq<Act>, rest: seq<Act>)
    requires Valid(s0) && k < |s0.ops| && s0.ops[k].copies > 0
    requires var act := Signal(k, waiter, resumed); Begun(s0, Begin(s0, act), act, rest)
    ensures var s := Begin(s0, Signal(k, waiter, resumed)); var r := UserSignal(s, k, waiter, resumed);
            Told(r) && SameFrames(s, r)
    decreases resumed, 4
  {
    var s := Begin(s0, Signal(k, waiter, resumed));
    var s1 := Enter(s, k);
    SetAtKeeps(s, k, s1.ops[k]);
    EnterPoised(s0, k, waiter, resumed, rest);
    SetOrTold(s1, k, waiter, resumed);
    hide Told;
    var s2 := SetOr(s1, k, waiter, resumed);
    assert OpTold(s2.ops[k], Retell(s2.log).ops[k], k in s2.stack) by { TellsOf(s2, k); }
    LeaveTold(s2, k, s2.ops[k].(calls := s2.ops[k].calls - 1));
  }

  lemma CompletePoised(s0: State, k: nat, waiter: bool, resumed: seq<Act>, rest: seq<Act>)
    requires Valid(s0) && k < |s0.ops| && s0.ops[k].status.Pending?
    requires var act := Complete(k, true, waiter, resumed); Begun(s0, Begin(s0, act), act, rest)
    ensures var s := Begin(s0, Complete(k, true, waiter, resumed));
            Poised(SetAt(s, k, s.ops[k].(status := Completing)), k, waiter, resumed)
  {
    BegunFacts(s0, Complete(k, true, waiter, resumed), rest);
    AliveIsNotCut(s0, k);
    hide Begun, Faithful, Retell, FramesTold, Valid;
    var s := Begin(s0, Complete(k, true, waiter, resumed));
    OpsChange(s0, SetAt(s, k, s.ops[k].(status := Completing)), Retell(s0.log).ops, k, Retell(s.log).ops[k]);
  }

  lemma FailedTold(s0: State, k: nat, waiter: bool, resumed: seq<Act>, rest: seq<Act>)
    requires Valid(s0) && k < |s0.ops| && s0.ops[k].status.Pending?
    requires var act := Complete(k, false, waiter, resumed); Begun(s0, Begin(s0, act), act, rest)
    ensures var s := Begin(s0, Complete(k, false, waiter, resumed));
            Told(SetAt(s, k, s.ops[k].(status := Status.Failed)))
  {
    BegunFacts(s0, Complete(k, false, waiter, resumed), rest);
    AliveIsNotCut(s0, k);
    hide Begun, Faithful, Retell, FramesTold, Valid;
    var s := Begin(s0, Complete(k, false, waiter, resumed));
    OpsChange(s0, SetAt(s, k, s.ops[k].(status := Status.Failed)), Retell(s0.log).ops, k, Retell(s.log).ops[k]);
  }

  lemma ReleaseTold(s: State, k: nat)
    requires Valid(s) && Told(s) && k < |s.ops| && s.ops[k].status.Completing?
    ensures var r := Release(SetAt(s, k, s.ops[k].(heapHandle := false, status := Completed)), k);
            Told(r) && r.log == s.log
  {
    var r := Release(SetAt(s, k, s.ops[k].(heapHandle := false, status := Completed)), k);
    assert r == SetAt(s, k, r.ops[k]);
    TellsOf(s, k);
    LeaveTold(s, k, r.ops[k]);
  }

  lemma {:induction false} CallbackTold(s0: State, k: nat, ok: bool, waiter: bool, resumed: seq<Act>, rest: seq<Act>)
    requires Valid(s0) && k < |s0.ops| && s0.ops[k].status.Pending?
    requires var act := Complete(k, ok, waiter, resumed); Begun(s0, Begin(s0, act), act, rest)
    ensures var s := Begin(s0, Complete(k, ok, waiter, resumed)); var r := Callback(s, k, ok, waiter, resumed);
            Told(r) && SameFrames(s, r)
    decreases resumed, 4
  {
    var s := Begin(s0, Complete(k, ok, waiter, resumed));
    if !ok {
      FailedTold(s0, k, waiter, resumed, rest);
    } else {
      var s1 := SetAt(s, k, s.ops[k].(status := Completing));
      SetAtKeeps(s, k, s1.ops[k]);
      CompletePoised(s0, k, waiter, resumed, rest);
      SetOrTold(s1, k, waiter, resumed);
      SetOrKeeps(s1, k, waiter, resumed);
      ReleaseTold(SetOr(s1, k, waiter, resumed), k);
    }
  }

  lemma OneMoreDone(t: Story, u0: Story, u1: Story, v: Story, acts: seq<Act>, act: Act, rest: seq<Act>)
    requires HasDone(t, u0, acts, [act] + rest) && HasDone(u0, u1, [act], rest)
    requires v.frames == u1.frames && v.base == u1.base
    ensures HasDone(t, v, acts + [act], rest)
  {
  }

  lemma RunValid(s: State, acts: seq<Act>)
    requires Valid(s)
    ensures Valid(RunUser(s, acts))
  {
    RunKeeps(s, acts);
  }

  lemma NothingDone(t: Story, rest: seq<Act>)
    requires Expects(t, [], rest)
    ensures HasDone(t, t, [], rest)
  {
    assert [] + rest == rest;
    if t.frames != [] {
      var n := |t.frames| - 1;
      assert t.frames[n := Frame(t.frames[n].k, rest)] == t.frames;
    }
  }

  lemma ExpectsLater(t: Story, acts: seq<Act>, act: Act, rest: seq<Act>)
    requires Expects(t, acts + [act], rest)
    ensures Expects(t, acts, [act] + rest)
  {
    assert acts + ([act] + rest) == (acts + [act]) + rest;
  }

  lemma ExpectsNext(t: Story, u: Story, acts: seq<Act>, act: Act, rest: seq<Act>)
    requires HasDone(t, u, acts, [act] + rest)
    ensures Expects(u, [act], rest)
  {
  }

  /** The last act of a list. */
  lemma {:induction false} LastTold(s: State, acts: seq<Act>, rest: seq<Act>)
    requires acts != []
    requires var s0 := RunUser(s, acts[..|acts| - 1]); var act := acts[|acts| - 1];
             Valid(s0) && Begun(s0, Begin(s0, act), act, rest)
    ensures var s1 := Begin(RunUser(s, acts[..|acts| - 1]), acts[|acts| - 1]); var r := RunUser(s, acts);
            Told(r) && SameFrames(s1, r)
    decreases acts, 0
  {
    hide Begun, Told, Valid;
    var s0, act := RunUser(s, acts[..|acts| - 1]), acts[|acts| - 1];
    if Idles(s0, act) {
      IdleTold(s0, act, rest);
    } else {
      match act
      case StartOp(pending) =>
        StartTold(s0, pending, rest);
      case CopyHandle(k) =>
        CopyTold(s0, k, rest);
      case DropHandle(k) =>
        DropTold(s0, k, rest);
      case Signal(k, waiter, resumed) =>
        UserSignalTold(s0, k, waiter, resumed, rest);
      case Complete(k, ok, waiter, resumed) =>
        CallbackTold(s0, k, ok, waiter, resumed, rest);
    }
  }

  lemma BegunHasDone(s0: State, act: Act, rest: seq<Act>)
    requires Begun(s0, Begin(s0, act), act, rest)
    ensures HasDone(Retell(s0.log), Retell(Begin(s0, act).log), [act], rest)
  {
  }

  /** Any code tells a faithful history, and does exactly its acts, in order. */
  lemma {:induction false} RunTold(s: State, acts: seq<Act>, rest: seq<Act>)
    requires Valid(s) && Told(s) && Expects(Retell(s.log), acts, rest)
    ensures Told(RunUser(s, acts)) && HasDone(Retell(s.log), Retell(RunUser(s, acts).log), acts, rest)
    decreases acts, 1
  {
    if acts == [] {
      NothingDone(Retell(s.log), rest);
    } else {
      var n, act := |acts| - 1, acts[|acts| - 1];
      var s0 := RunUser(s, acts[..n]);
      assert acts == acts[..n] + [act];
      ExpectsLater(Retell(s.log), acts[..n], act, rest);
      hide Begun, Told, Valid, Expects, HasDone, Retell, RunUser, Keeps;
      RunValid(s, acts[..n]);
      RunTold(s, acts[..n], [act] + rest);
      ExpectsNext(Retell(s.log), Retell(s0.log), acts[..n], act, rest);
      BeginTold(s0, act, rest);
      LastTold(s, acts, rest);
      BegunHasDone(s0, act, rest);
      OneMoreDone(Retell(s.log), Retell(s0.log), Retell(Begin(s0, act).log), Retell(RunUser(s, acts).log),
                  acts[..n], act, rest);
    }
  }

  // ---------------------------------------------------------------- what follows

  /** Any program, from its start or from any later state at rest: it does exactly its acts, and its history
      is faithful: the acts that must resume a waiter do so at once, that waiter does exactly its own acts,
      and nothing else is resumed. */
  lemma ProgramTold(s: State, acts: seq<Act>)
    requires AtRest(s) && Told(s)
    ensures var r := RunUser(s, acts);
            && AtRest(r) && Told(r) && Faithful(r.log)
            && Retell(r.log).frames == [] && Retell(r.log).base == Retell(s.log).base + acts
  {
    assert Retell(s.log).frames == [];
    AnyProgram(s, acts);
    RunTold(s, acts, []);
  }

  lemma StartIsTold()
    ensures AtRest(State([], [], [])) && Told(State([], [], []))
  {
  }

  /** An operation whose event user code never signals: once it is completed with success, the event holds
      the value if nobody waited, and otherwise the waiter was resumed, once, and the event is free again.
      As long as it is pending, or if it completed at once or failed, neither has happened. */
  lemma CompletionSignalsOnce(s: State, acts: seq<Act>, k: nat)
    requires AtRest(s) && Told(s)
    requires var r := RunUser(s, acts); k < |r.ops| && !r.ops[k].byUser
    ensures var r := RunUser(s, acts);
            && k < |Retell(r.log).ops|
            && var op, f := r.ops[k], Retell(r.log).ops[k];
               if !op.status.Completed? then !op.signaled && f.woken == 0
               else
                 && f.completion.Some? && f.completion.value.Complete? && f.completion.value.ok
                 && if f.completion.value.waiter then !op.signaled && f.woken == 1 else op.signaled && f.woken == 0
  {
    ProgramTold(s, acts);
    AnyProgram(s, acts);
  }

  /** The copies of a handle are the one the caller got, and those made, less those dropped. */
  lemma CopiesAsTold(s: State, acts: seq<Act>, k: nat)
    requires AtRest(s) && Told(s) && k < |RunUser(s, acts).ops|
    ensures var r := RunUser(s, acts);
            k < |Retell(r.log).ops| && r.ops[k].copies == Retell(r.log).ops[k].copies
            && (!r.ops[k].cut ==> r.ops[k].signaled == Retell(r.log).ops[k].signaled)
  {
    ProgramTold(s, acts);
  }
}
