/** Coroutines that are lost: which await loses one, which one, and that it stays lost. */
module EventWaiters {
  import opened Common
  import opened Events
  import opened EventTheorems

  /** Coroutine `d` is suspended on an event that does not hold its handle for a later signal. */
  ghost predicate Orphan(s: State, d: nat)
    requires Inv(s)
  {
    && d < |s.cos| && s.cos[d].status.Suspended?
    && var e := s.cos[d].status.on;
       e < |s.events| ==> s.events[e].waiter != Some(d)
  }

  /** An await on an event that is not signalled loses a coroutine if and only if the event holds a handle
      at that moment, and the one it loses is the coroutine of that handle. */
  lemma AwaitLosesStoredWaiter(s: State, c: nat, e: nat)
    requires Inv(s) && c < |s.cos| && s.cos[c].status.Running?
    requires e < |s.events| && !s.events[e].signaled
    ensures forall d: nat :: !Orphan(s, d) && Orphan(Park(s, c, e), d) <==> s.events[e].waiter == Some(d)
  {
  }

  // ---------------------------------------------------------------- lost for ever

  lemma AcceptKeepsOrphan(s: State, e: nat, v: Value, d: nat)
    requires Inv(s) && e < |s.events| && !s.events[e].signaled && Orphan(s, d)
    ensures Inv(Accept(s, e, v)) && Orphan(Accept(s, e, v), d) && Accept(s, e, v).cos[d] == s.cos[d]
  {
  }

  lemma ParkKeepsOrphan(s: State, c: nat, e: nat, d: nat)
    requires Inv(s) && c < |s.cos| && s.cos[c].status.Running?
    requires e < |s.events| && !s.events[e].signaled && Orphan(s, d)
    ensures Orphan(Park(s, c, e), d) && Park(s, c, e).cos[d] == s.cos[d]
  {
  }

  lemma {:induction false} SetOrKeepsOrphan(s: State, e: nat, v: Value, d: nat)
    requires Inv(s) && e < |s.events| && Orphan(s, d)
    ensures Orphan(SetOr(s, e, v), d) && SetOr(s, e, v).cos[d] == s.cos[d]
    decreases Work(s.cos), 1
  {
    if !s.events[e].signaled {
      AcceptKeepsOrphan(s, e, v, d);
      if s.events[e].waiter.Some? {
        RunKeepsOrphan(Accept(s, e, v), s.events[e].waiter.value, d);
      }
    }
  }

  lemma {:induction false} RunKeepsOrphan(s: State, c: nat, d: nat)
    requires Inv(s) && c < |s.cos| && s.cos[c].status.Running? && Orphan(s, d)
    ensures Orphan(Run(s, c), d) && Run(s, c).cos[d] == s.cos[d]
    decreases Work(s.cos), 0
  {
    if s.cos[c].script != [] {
      var s1 := Step(s, c);
      assert Orphan(s1, d);
      match s.cos[c].script[0]
      case Set(e, v) =>
        SetOrKeepsOrphan(s1, e, v, d);
        RunKeepsOrphan(SetOr(s1, e, v), c, d);
      case Await(e) =>
        if s.events[e].signaled {
          RunKeepsOrphan(s1.(log := s1.log + [Read(c, e, s1.events[e].data.value)]), c, d);
        } else {
          ParkKeepsOrphan(s1, c, e, d);
        }
    }
  }

  lemma Drive1KeepsOrphan(s: State, call: Call, d: nat)
    requires Inv(s) && CallOk(s, call) && Orphan(s, d)
    ensures Orphan(Drive1(s, call), d) && Drive1(s, call).cos[d] == s.cos[d]
  {
    match call
    case Signal(e, v) => SetOrKeepsOrphan(s, e, v, d);
    case Clear(e) =>
    case Start(c) =>
      if s.cos[c].status.Fresh? {
        assert Orphan(Started(s, c), d);
        RunKeepsOrphan(Started(s, c), c, d);
      }
  }

  ghost predicate CallsOk(s: State, calls: seq<Call>) {
    forall i | 0 <= i < |calls| :: CallOk(s, calls[i])
  }

  /** The state after a list of calls. */
  ghost function DriveAll(s: State, calls: seq<Call>): (r: State)
    requires Inv(s) && CallsOk(s, calls)
    ensures |r.cos| == |s.cos|
    decreases |calls|
  {
    if calls == [] then s else DriveAll(Drive1(s, calls[0]), calls[1..])
  }

  /** No list of later calls, however they nest, touches a lost coroutine. */
  lemma {:induction false} OrphanForEver(s: State, calls: seq<Call>, d: nat)
    requires Inv(s) && CallsOk(s, calls) && Orphan(s, d)
    ensures DriveAll(s, calls).cos[d] == s.cos[d]
    decreases |calls|
  {
    if calls != [] {
      Drive1KeepsOrphan(s, calls[0], d);
      OrphanForEver(Drive1(s, calls[0]), calls[1..], d);
    }
  }

  /** A signal on the event that holds the handle takes the coroutine off its suspension. */
  lemma SignalFreesWaiter(s: State, e: nat, v: Value, d: nat)
    requires Inv(s) && e < |s.events| && !s.events[e].signaled && s.events[e].waiter == Some(d)
    ensures SetOr(s, e, v).cos[d] != s.cos[d]
  {
    var s1 := Accept(s, e, v);
    assert s1.cos[d].status.Running? && s1.events[e].signaled;
    assert Run(s1, d).cos[d].status != Suspended(e);
  }

  /** Between calls, a suspended coroutine is out of reach of every future if and only if the event it
      waits for does not hold its handle. */
  lemma LostIffOrphan(s: State, d: nat)
    requires Inv(s) && Quiet(s) && d < |s.cos| && s.cos[d].status.Suspended? && s.cos[d].status.on < |s.events|
    ensures Orphan(s, d) <==> forall calls | CallsOk(s, calls) :: DriveAll(s, calls).cos[d] == s.cos[d]
  {
    if Orphan(s, d) {
      forall calls | CallsOk(s, calls) ensures DriveAll(s, calls).cos[d] == s.cos[d] {
        OrphanForEver(s, calls, d);
      }
    } else {
      var e := s.cos[d].status.on;
      var calls := [Signal(e, 0)];
      SignalFreesWaiter(s, e, 0, d);
      assert CallsOk(s, calls);
      assert calls[1..] == [];
      assert DriveAll(s, calls) == Drive1(s, calls[0]);
    }
  }

  // ---------------------------------------------------------------- how it happens

  /** A coroutine whose whole script is to await `e` suspends when it is started. */
  lemma StartAwait(s: State, c: nat, e: nat)
    requires Inv(s) && c < |s.cos| && s.cos[c] == Coroutine(Fresh, [Await(e)])
    requires e < |s.events| && !s.events[e].signaled
    ensures Drive1(s, Start(c)) ==
            State(s.events[e := s.events[e].(waiter := Some(c))], s.cos[c := Coroutine(Suspended(e), [])],
                  s.log + [Parked(c, e)])
  {
    var s1 := Started(s, c);
    var s2 := Step(s1, c);
    assert s2.cos[c] == Coroutine(Running, []);
    assert Run(s1, c) == Park(s2, c, e);
    assert Park(s2, c, e).cos == s.cos[c := Coroutine(Suspended(e), [])];
  }

  /** A waiter with nothing left to do ends when it is resumed. */
  lemma WakeLast(s: State, c: nat, e: nat, v: Value)
    requires Inv(s) && e < |s.events| && !s.events[e].signaled && s.events[e].waiter == Some(c)
    requires s.cos[c] == Coroutine(Suspended(e), [])
    ensures SetOr(s, e, v) ==
            State(s.events[e := Event(false, Some(v), None)], s.cos[c := Coroutine(Finished, [])],
                  s.log + [Accepted(e, v), Resumed(c, e), Read(c, e, v), Reset(e)])
  {
    var s1 := Accept(s, e, v);
    assert Run(s1, c) == Finish(s1, c);
    assert Finish(s1, c).cos == s.cos[c := Coroutine(Finished, [])];
    assert Finish(s1, c).events == s1.events;
    assert SetOr(s, e, v).log == s1.log + [Reset(e)];
  }

  /** The first call of a list, when its result is known. */
  lemma DriveFirst(s: State, call: Call, rest: seq<Call>, t: State)
    requires Inv(s) && CallOk(s, call) && Drive1(s, call) == t && CallsOk(s, rest)
    ensures CallsOk(s, [call] + rest) && DriveAll(s, [call] + rest) == DriveAll(t, rest)
  {
    assert ([call] + rest)[1..] == rest;
  }

  /** The state after coroutine `c` suspended on a fresh event `e`. */
  function Parks(s: State, c: nat, e: nat): State
    requires c < |s.cos| && e < |s.events|
  {
    State(s.events[e := Event(false, None, Some(c))], s.cos[c := Coroutine(Suspended(e), [])],
          s.log + [Parked(c, e)])
  }

  lemma DriveAwait(s: State, c: nat, e: nat, rest: seq<Call>)
    requires Inv(s) && c < |s.cos| && s.cos[c] == Coroutine(Fresh, [Await(e)]) && CallsOk(s, rest)
    requires e < |s.events| && !s.events[e].signaled && s.events[e].data.None?
    ensures Inv(Parks(s, c, e)) && CallsOk(s, [Start(c)] + rest)
    ensures DriveAll(s, [Start(c)] + rest) == DriveAll(Parks(s, c, e), rest)
  {
    StartAwait(s, c, e);
    DriveFirst(s, Start(c), rest, Parks(s, c, e));
  }

  /** The first waiter is parked, and the second is about to await the same event. */
  ghost predicate FirstParked(s: State, a: nat, b: nat, e: nat)
    requires Inv(s)
  {
    && a < |s.cos| && b < |s.cos| && a != b && e < |s.events|
    && s.cos[a] == Coroutine(Suspended(e), []) && s.cos[b] == Coroutine(Fresh, [Await(e)])
    && s.events[e] == Event(false, None, Some(a))
  }

  lemma FirstAwaits(s: State, a: nat, b: nat, e: nat, rest: seq<Call>)
    requires Initial(s) && a < |s.cos| && b < |s.cos| && a != b && e < |s.events|
    requires s.cos[a].script == s.cos[b].script == [Await(e)] && CallsOk(s, rest)
    ensures Inv(s) && CallsOk(s, [Start(a)] + rest)
    ensures var s1 := Parks(s, a, e);
            Inv(s1) && FirstParked(s1, a, b, e) && DriveAll(s, [Start(a)] + rest) == DriveAll(s1, rest)
  {
    DriveAwait(s, a, e, rest);
  }

  lemma DriveWake(s: State, a: nat, b: nat, e: nat, v: Value)
    requires Inv(s) && a < |s.cos| && b < |s.cos| && a != b
    requires e < |s.events| && s.events[e] == Event(false, None, Some(b))
    requires s.cos[a] == s.cos[b] == Coroutine(Suspended(e), [])
    ensures CallsOk(s, [Signal(e, v)])
    ensures var t := DriveAll(s, [Signal(e, v)]);
            && t.cos == s.cos[b := Coroutine(Finished, [])]
            && t.events == s.events[e := Event(false, Some(v), None)]
            && Inv(t) && Orphan(t, a)
  {
    WakeLast(s, b, e, v);
    DriveFirst(s, Signal(e, v), [], Drive1(s, Signal(e, v)));
    assert [Signal(e, v)] + [] == [Signal(e, v)];
  }

  lemma SecondAwaits(s: State, a: nat, b: nat, e: nat, v: Value)
    requires Inv(s) && FirstParked(s, a, b, e)
    ensures CallsOk(s, [Start(b), Signal(e, v)])
    ensures var t := DriveAll(s, [Start(b), Signal(e, v)]);
            && t.cos == s.cos[b := Coroutine(Finished, [])]
            && t.events == s.events[e := Event(false, Some(v), None)]
            && Inv(t) && Orphan(t, a)
  {
    hide Drive1, SetOr, Run;
    DriveAwait(s, b, e, [Signal(e, v)]);
    assert [Start(b)] + [Signal(e, v)] == [Start(b), Signal(e, v)];
    DriveWake(Parks(s, b, e), a, b, e, v);
  }

  /** Two coroutines that await one event before it is signalled: the second runs to its end, and the
      first stays suspended with its handle nowhere. */
  lemma SecondWaiterLosesFirst(s: State, a: nat, b: nat, e: nat, v: Value)
    requires Initial(s) && a < |s.cos| && b < |s.cos| && a != b && e < |s.events|
    requires s.cos[a].script == s.cos[b].script == [Await(e)]
    ensures Inv(s) && CallsOk(s, [Start(a), Start(b), Signal(e, v)])
    ensures var t := DriveAll(s, [Start(a), Start(b), Signal(e, v)]);
            && t.cos == s.cos[a := Coroutine(Suspended(e), [])][b := Coroutine(Finished, [])]
            && t.events == s.events[e := Event(false, Some(v), None)]
            && Inv(t) && Orphan(t, a)
  {
    hide DriveAll, Drive1, SetOr, Run;
    var rest := [Start(b), Signal(e, v)];
    assert [Start(a)] + rest == [Start(a), Start(b), Signal(e, v)];
    FirstAwaits(s, a, b, e, rest);
    SecondAwaits(Parks(s, a, e), a, b, e, v);
  }

  /** An event that is signalled while nobody waits holds that value until it is reset: the second signal is
      refused, and accepted after a reset. A handle offers no reset, so through handles it holds the first
      value for ever. */
  lemma FirstSignalSticks(s: State, e: nat, v: Value, w: Value)
    requires Inv(s) && e < |s.events| && !s.events[e].signaled && s.events[e].waiter.None?
    ensures var t := SetOr(SetOr(s, e, v), e, w);
            && t == State(s.events[e := Event(true, Some(v), None)], s.cos, s.log + [Accepted(e, v), Refused(e, w)])
            && Inv(ResetEvent(t, e))
            && SetOr(ResetEvent(t, e), e, w)
               == State(s.events[e := Event(true, Some(w), None)], s.cos, t.log + [Reset(e), Accepted(e, w)])
  {
    hide Run;
    var t := SetOr(SetOr(s, e, v), e, w);
    assert t.log == s.log + [Accepted(e, v), Refused(e, w)];
    assert SetOr(ResetEvent(t, e), e, w).log == t.log + [Reset(e), Accepted(e, w)];
  }

  // ---------------------------------------------------------------- reset

  /** A `set_or` on event `e` would now resume a coroutine that is not suspended on it. */
  ghost predicate WouldMisresume(s: State, e: nat) {
    && e < |s.events| && !s.events[e].signaled && s.events[e].waiter.Some?
    && var c := s.events[e].waiter.value; c < |s.cos| ==> s.cos[c].status != Suspended(e)
  }

  /** Event `e` is signalled, and the coroutine of the handle it still holds is not suspended on it. Between
      calls there is no such event; while a `set_or` is on the call stack, its own event is one. */
  ghost predicate HandleIsStale(s: State, e: nat) {
    && e < |s.events| && s.events[e].signaled && s.events[e].waiter.Some?
    && var c := s.events[e].waiter.value; c < |s.cos| ==> s.cos[c].status != Suspended(e)
  }

  /** A reset leads a later `set_or` to a coroutine that is not suspended there if and only if it hits an
      event that still holds a stale handle, and only that event is affected. */
  lemma ResetMisleadsIff(s: State, e: nat)
    requires Inv(s) && e < |s.events|
    ensures forall d: nat :: WouldMisresume(ResetEvent(s, e), d) <==> d == e && HandleIsStale(s, e)
    ensures Inv(ResetEvent(s, e)) <==> !HandleIsStale(s, e)
  {
    var r := ResetEvent(s, e);
    assert WouldMisresume(r, e) <==> HandleIsStale(s, e);
    if Inv(r) {
      assert !WouldMisresume(r, e);
    }
  }

  /** Between calls every reset is harmless. */
  lemma QuietHasNoStaleHandle(s: State, e: nat)
    requires Quiet(s)
    ensures !HandleIsStale(s, e)
  {
  }

  /** The coroutine that a `set_or` resumes hits that event when it resets it: a `set_or` that follows would
      resume the coroutine while it runs. */
  lemma ResumedCodeMayMislead(s: State, e: nat, v: Value, c: nat)
    requires Inv(s) && e < |s.events| && !s.events[e].signaled && s.events[e].waiter == Some(c)
    ensures Accept(s, e, v).cos[c].status.Running? && WouldMisresume(ResetEvent(Accept(s, e, v), e), e)
  {
  }
}
