/** Specification of the auto-reset event and of the coroutines that await and signal it.

    The state is a value: many events, many coroutines with finite scripts, and the history of what
    happened. `SetOr`, `Accept` and `Run` follow the source's nesting: signalling an event resumes its
    waiter before the signalling call returns, and the resumed coroutine may signal or await any event. */
module Events {
  import opened Common

  /** The value an event carries. */
  type Value = int

  datatype Event = Event(signaled: bool, data: Option<Value>, waiter: Option<nat>)

  /** What a coroutine does between two suspension points. */
  datatype Op = Await(e: nat) | Set(e: nat, v: Value)

  datatype Status = Fresh | Running | Suspended(on: nat) | Finished

  datatype Coroutine = Coroutine(status: Status, script: seq<Op>)

  /** One observable step. `Refused` is the call of the `full_callback`; `Reset` is the end of a `set_or`
      that resumed a waiter, or a call of `reset` on a signalled event. */
  datatype Entry =
    | Accepted(e: nat, v: Value)
    | Reset(e: nat)
    | Refused(e: nat, v: Value)
    | Parked(c: nat, e: nat)
    | Resumed(c: nat, e: nat)
    | Read(c: nat, e: nat, v: Value)

  datatype State = State(events: seq<Event>, cos: seq<Coroutine>, log: seq<Entry>)

  // ---------------------------------------------------------------- invariants of the state

  ghost predicate ScriptOk(script: seq<Op>, events: nat) {
    forall k | 0 <= k < |script| :: script[k].e < events
  }

  /** A handle stored in an event that is not signalled belongs to a coroutine suspended on that event;
      a signalled event carries a value. Nothing is said of the handle of a signalled event: while a
      call of `set_or` is on the stack it is stale. */
  ghost predicate Inv(s: State) {
    && (forall e | 0 <= e < |s.events| && !s.events[e].signaled && s.events[e].waiter.Some? ::
          var c := s.events[e].waiter.value;
          c < |s.cos| && s.cos[c].status == Suspended(e))
    && (forall e | 0 <= e < |s.events| && s.events[e].signaled :: s.events[e].data.Some?)
    && (forall c | 0 <= c < |s.cos| :: ScriptOk(s.cos[c].script, |s.events|))
  }

  /** No call is active: nothing runs, and no event is signalled while it holds a handle. */
  ghost predicate Quiet(s: State) {
    && (forall e | 0 <= e < |s.events| :: !(s.events[e].signaled && s.events[e].waiter.Some?))
    && (forall c | 0 <= c < |s.cos| :: !s.cos[c].status.Running?)
  }

  /** What a nested call may do to the state around it: events that were signalled when it began are
      frozen, a coroutine that was running, finished or not started is untouched (except `self`, the
      one being run), and no other event is left signalled with a handle. */
  ghost predicate Nested(s: State, r: State, self: int) {
    && |r.events| == |s.events| && |r.cos| == |s.cos|
    && (forall e | 0 <= e < |s.events| && s.events[e].signaled :: r.events[e] == s.events[e])
    && (forall e | 0 <= e < |s.events| && !s.events[e].signaled ::
          !(r.events[e].signaled && r.events[e].waiter.Some?))
    && (forall c | 0 <= c < |s.cos| && c != self && !s.cos[c].status.Suspended? :: r.cos[c] == s.cos[c])
    && (forall c | 0 <= c < |s.cos| && c != self && s.cos[c].status.Suspended? ::
          r.cos[c].status.Suspended? || r.cos[c].status.Finished?)
  }

  /** A step of coroutine `c` and a call nested in it, one after the other. */
  lemma NestedTrans(s: State, s1: State, s2: State, c: nat)
    requires Nested(s, s1, c) && Nested(s1, s2, -1) && c < |s.cos| && s1.cos[c].status.Running?
    requires forall d | 0 <= d < |s.cos| && d != c :: s1.cos[d] == s.cos[d]
    requires s1.events == s.events
    ensures Nested(s, s2, c) && s2.cos[c].status.Running?
  {
  }

  /** Operations still to be executed, over all coroutines. */
  function Work(cos: seq<Coroutine>): nat {
    if cos == [] then 0 else |cos[0].script| + Work(cos[1..])
  }

  lemma {:induction false} WorkUpdate(cos: seq<Coroutine>, c: nat, x: Coroutine)
    requires c < |cos|
    ensures Work(cos[c := x]) == Work(cos) - |cos[c].script| + |x.script|
  {
    if c == 0 {
      assert cos[c := x][1..] == cos[1..];
    } else {
      assert cos[c := x][1..] == cos[1..][c - 1 := x];
      WorkUpdate(cos[1..], c - 1, x);
    }
  }

  // ---------------------------------------------------------------- the operations

  /** `set_or` up to and including the hand-over to the waiter: the value is stored, the event is
      signalled with the handle still in place, and the waiter runs on and reads the value. */
  function Accept(s: State, e: nat, v: Value): (r: State)
    requires Inv(s) && e < |s.events| && !s.events[e].signaled
    ensures Work(r.cos) == Work(s.cos)
  {
    var ev := s.events[e].(data := Some(v), signaled := true);
    match s.events[e].waiter
    case None => s.(events := s.events[e := ev], log := s.log + [Accepted(e, v)])
    case Some(c) =>
      var co := s.cos[c].(status := Running);
      WorkUpdate(s.cos, c, co);
      State(s.events[e := ev], s.cos[c := co], s.log + [Accepted(e, v), Resumed(c, e), Read(c, e, v)])
  }

  /** The event ends as it was if it was signalled; otherwise it holds the value and no handle, and it is
      signalled exactly if nobody waited. */
  function SetOr(s: State, e: nat, v: Value): (r: State)
    requires Inv(s) && e < |s.events|
    ensures Inv(r) && Nested(s, r, -1) && Work(r.cos) <= Work(s.cos)
    ensures r.events[e] == if s.events[e].signaled then s.events[e]
                           else Event(s.events[e].waiter.None?, Some(v), None)
    decreases Work(s.cos), 1
  {
    if s.events[e].signaled then
      s.(log := s.log + [Refused(e, v)])
    else
      var s1 := Accept(s, e, v);
      match s.events[e].waiter
      case None => s1
      case Some(c) =>
        var s2 := Run(s1, c);
        s2.(events := s2.events[e := s2.events[e].(waiter := None, signaled := false)], log := s2.log + [Reset(e)])
  }

  /** `reset`: the event is no longer signalled. Its value and its handle stay as they are. */
  function ResetEvent(s: State, e: nat): State
    requires e < |s.events|
  {
    if s.events[e].signaled then
      s.(events := s.events[e := s.events[e].(signaled := false)], log := s.log + [Reset(e)])
    else
      s
  }

  /** Coroutine `c` consumes the first operation of its script. */
  function Step(s: State, c: nat): (r: State)
    requires Inv(s) && c < |s.cos| && s.cos[c].status.Running? && s.cos[c].script != []
    ensures Inv(r) && Nested(s, r, c) && Work(r.cos) == Work(s.cos) - 1
    ensures r.cos[c].status.Running? && r.events == s.events && r.log == s.log
  {
    var co := s.cos[c].(script := s.cos[c].script[1..]);
    WorkUpdate(s.cos, c, co);
    s.(cos := s.cos[c := co])
  }

  /** `await_suspend` on an event that is not signalled: the handle is stored (over an older one, if
      there is one) and the coroutine gives up control. */
  function Park(s: State, c: nat, e: nat): (r: State)
    requires Inv(s) && c < |s.cos| && s.cos[c].status.Running?
    requires e < |s.events| && !s.events[e].signaled
    ensures Inv(r) && Nested(s, r, c) && Work(r.cos) == Work(s.cos)
  {
    var co := s.cos[c].(status := Suspended(e));
    WorkUpdate(s.cos, c, co);
    State(s.events[e := s.events[e].(waiter := Some(c))], s.cos[c := co], s.log + [Parked(c, e)])
  }

  function Finish(s: State, c: nat): (r: State)
    requires Inv(s) && c < |s.cos| && s.cos[c].status.Running?
    ensures Inv(r) && Nested(s, r, c) && Work(r.cos) == Work(s.cos)
  {
    var co := s.cos[c].(status := Finished);
    WorkUpdate(s.cos, c, co);
    s.(cos := s.cos[c := co])
  }

  /** Runs coroutine `c` until it suspends or ends. */
  function Run(s: State, c: nat): (r: State)
    requires Inv(s) && c < |s.cos| && s.cos[c].status.Running?
    ensures Inv(r) && Nested(s, r, c) && Work(r.cos) <= Work(s.cos)
    ensures match r.cos[c].status
            case Suspended(e) => e < |s.events| && !s.events[e].signaled
            case Finished => true
            case _ => false
    decreases Work(s.cos), 0
  {
    if s.cos[c].script == [] then
      Finish(s, c)
    else
      var s1 := Step(s, c);
      match s.cos[c].script[0]
      case Set(e, v) =>
        var s2 := SetOr(s1, e, v);
        NestedTrans(s, s1, s2, c);
        Run(s2, c)
      case Await(e) =>
        if s.events[e].signaled then
          Run(s1.(log := s1.log + [Read(c, e, s1.events[e].data.value)]), c)
        else
          Park(s1, c, e)
  }
}
