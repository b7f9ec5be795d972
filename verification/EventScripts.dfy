/** Every coroutine performs its script: what is gone from a script has been done, in order and for
    everyone to see in the history, and a coroutine stops only at an await or at the end. */
module EventScripts {
  import opened Events
  import opened EventTheorems

  /** The history entry by which coroutine `c` performs an operation. */
  ghost predicate Does(x: Entry, c: nat, op: Op) {
    match op
    case Set(e, v) => x == Accepted(e, v) || x == Refused(e, v)
    case Await(e) => x == Parked(c, e) || (x.Read? && x.c == c && x.e == e)
  }

  /** `at` are the increasing positions, from `from` on, at which coroutine `c` performs `ops`. */
  ghost predicate DoneAt(log: seq<Entry>, from: nat, c: nat, ops: seq<Op>, at: seq<nat>) {
    && |at| == |ops|
    && (forall j | 0 <= j < |at| :: from <= at[j] < |log| && Does(log[at[j]], c, ops[j]))
    && (forall i, j | 0 <= i < j < |at| :: at[i] < at[j])
  }

  ghost predicate Done(log: seq<Entry>, from: nat, c: nat, ops: seq<Op>) {
    exists at :: DoneAt(log, from, c, ops, at)
  }

  lemma DoneNothing(log: seq<Entry>, from: nat, c: nat)
    ensures Done(log, from, c, [])
  {
    assert DoneAt(log, from, c, [], []);
  }

  lemma DoneOne(log: seq<Entry>, p: nat, c: nat, op: Op)
    requires p < |log| && Does(log[p], c, op)
    ensures Done(log, p, c, [op])
  {
    assert DoneAt(log, p, c, [op], [p]);
  }

  /** What is done in a history, and then in its continuation. */
  lemma DoneThen(log1: seq<Entry>, log2: seq<Entry>, from: nat, c: nat, ops1: seq<Op>, ops2: seq<Op>)
    requires log1 <= log2 && from <= |log1| && Done(log1, from, c, ops1) && Done(log2, |log1|, c, ops2)
    ensures Done(log2, from, c, ops1 + ops2)
  {
    var at1 :| DoneAt(log1, from, c, ops1, at1);
    var at2 :| DoneAt(log2, |log1|, c, ops2, at2);
    assert DoneAt(log2, from, c, ops1 + ops2, at1 + at2);
  }

  /** From `s` to `r`, coroutine `d` has performed exactly the first k operations of its script. It is
      suspended only where it was, or at the await it performed last, and it has ended only with its script. */
  ghost predicate AdvancesBy(s: State, r: State, d: nat, k: nat)
    requires d < |s.cos|
  {
    && s.log <= r.log && |r.cos| == |s.cos| && k <= |s.cos[d].script|
    && r.cos[d].script == s.cos[d].script[k..]
    && Done(r.log, |s.log|, d, s.cos[d].script[..k])
    && match r.cos[d].status
       case Fresh => r.cos[d] == s.cos[d]
       case Running => true
       case Suspended(e) => r.cos[d] == s.cos[d] || (k > 0 && s.cos[d].script[k - 1] == Await(e))
       case Finished => r.cos[d] == s.cos[d] || r.cos[d].script == []
  }

  ghost predicate Advances(s: State, r: State, d: nat)
    requires d < |s.cos|
  {
    exists k: nat :: AdvancesBy(s, r, d, k)
  }

  lemma Stays(s: State, r: State, d: nat)
    requires d < |s.cos| && s.log <= r.log && |r.cos| == |s.cos| && r.cos[d].script == s.cos[d].script
    requires r.cos[d] == s.cos[d] || r.cos[d].status.Running? || (r.cos[d].status.Finished? && r.cos[d].script == [])
    ensures Advances(s, r, d)
  {
    DoneNothing(r.log, |s.log|, d);
    assert s.cos[d].script[..0] == [];
    assert AdvancesBy(s, r, d, 0);
  }

  lemma ThenBy(s: State, m: State, r: State, d: nat, j: nat, k: nat)
    requires d < |s.cos| && AdvancesBy(s, m, d, j) && AdvancesBy(m, r, d, k)
    ensures AdvancesBy(s, r, d, j + k)
  {
    var script := s.cos[d].script;
    assert script[j..][..k] == script[j..j + k] && script[j..][k..] == script[j + k..];
    DoneThen(m.log, r.log, |s.log|, d, script[..j], script[j..j + k]);
    hide Done;
    assert script[..j] + script[j..j + k] == script[..j + k];
  }

  lemma Then(s: State, m: State, r: State, d: nat)
    requires d < |s.cos| && Advances(s, m, d) && d < |m.cos| && Advances(m, r, d)
    ensures Advances(s, r, d)
  {
    hide AdvancesBy;
    var j: nat :| AdvancesBy(s, m, d, j);
    var k: nat :| AdvancesBy(m, r, d, k);
    ThenBy(s, m, r, d, j, k);
  }

  /** One operation: coroutine `c` consumes it, and the first entry of `t` after `s` performs it. */
  lemma OneOperation(s: State, t: State, c: nat)
    requires c < |s.cos| && s.cos[c].script != [] && s.log < t.log && |t.cos| == |s.cos|
    requires t.cos[c].script == s.cos[c].script[1..] && Does(t.log[|s.log|], c, s.cos[c].script[0])
    requires t.cos[c].status.Running? || (t.cos[c].status.Suspended? && s.cos[c].script[0] == Await(t.cos[c].status.on))
    ensures Advances(s, t, c)
  {
    DoneOne(t.log, |s.log|, c, s.cos[c].script[0]);
    assert s.cos[c].script[..1] == [s.cos[c].script[0]];
    assert AdvancesBy(s, t, c, 1);
  }

  lemma AdvancesFrom(s: State, s1: State, r: State, d: nat)
    requires d < |s.cos| && |s1.cos| == |s.cos| && s1.cos[d] == s.cos[d] && s1.log == s.log && Advances(s1, r, d)
    ensures Advances(s, r, d)
  {
    var k: nat :| AdvancesBy(s1, r, d, k);
    assert AdvancesBy(s, r, d, k);
  }

  lemma LogGrows(s: State, r: State, d: nat)
    requires d < |s.cos| && Advances(s, r, d)
    ensures s.log <= r.log && |r.cos| == |s.cos|
  {
  }

  /** The first entry of a `set_or` says that it was called. */
  ghost predicate Seen(s: State, r: State, e: nat, v: Value) {
    s.log < r.log && (r.log[|s.log|] == Accepted(e, v) || r.log[|s.log|] == Refused(e, v))
  }

  lemma AtOnce(s: State, e: nat, v: Value, d: nat)
    requires Inv(s) && e < |s.events| && d < |s.cos| && (s.events[e].signaled || s.events[e].waiter.None?)
    ensures Advances(s, SetOr(s, e, v), d) && Seen(s, SetOr(s, e, v), e, v)
  {
    Stays(s, SetOr(s, e, v), d);
  }

  lemma AfterAccept(s: State, e: nat, v: Value, m: State, r: State, d: nat)
    requires Inv(s) && e < |s.events| && d < |s.cos| && !s.events[e].signaled
    requires Advances(Accept(s, e, v), m, d)
    requires r.cos == m.cos && r.log == m.log + [Reset(e)]
    ensures Advances(s, r, d) && Seen(s, r, e, v)
  {
    var s1 := Accept(s, e, v);
    LogGrows(s1, m, d);
    hide AdvancesBy;
    Stays(s, s1, d);
    Stays(m, r, d);
    Then(s, s1, m, d);
    Then(s, m, r, d);
  }

  lemma {:induction false} SetOrAdvances(s: State, e: nat, v: Value, d: nat)
    requires Inv(s) && e < |s.events| && d < |s.cos|
    ensures Advances(s, SetOr(s, e, v), d) && Seen(s, SetOr(s, e, v), e, v)
    decreases Work(s.cos), 2
  {
    hide Advances;
    if s.events[e].signaled || s.events[e].waiter.None? {
      AtOnce(s, e, v, d);
    } else {
      var c := s.events[e].waiter.value;
      RunAdvances(Accept(s, e, v), c, d);
      AfterAccept(s, e, v, Run(Accept(s, e, v), c), SetOr(s, e, v), d);
    }
  }

  lemma {:induction false} RunAdvances(s: State, c: nat, d: nat)
    requires Inv(s) && c < |s.cos| && s.cos[c].status.Running? && d < |s.cos|
    ensures Advances(s, Run(s, c), d)
    decreases Work(s.cos), 1
  {
    if s.cos[c].script == [] {
      Stays(s, Finish(s, c), d);
    } else {
      match s.cos[c].script[0]
      case Set(e, v) => SetAdvances(s, c, d);
      case Await(e) => AwaitAdvances(s, c, d);
    }
  }

  lemma {:induction false} SetAdvances(s: State, c: nat, d: nat)
    requires Inv(s) && c < |s.cos| && s.cos[c].status.Running? && d < |s.cos|
    requires s.cos[c].script != [] && s.cos[c].script[0].Set?
    ensures Advances(s, Run(s, c), d)
    decreases Work(s.cos), 0
  {
    hide AdvancesBy;
    var op := s.cos[c].script[0];
    var s1 := Step(s, c);
    var s2 := SetOr(s1, op.e, op.v);
    SetOrAdvances(s1, op.e, op.v, d);
    if d == c {
      OneOperation(s, s2, c);
    } else {
      AdvancesFrom(s, s1, s2, d);
    }
    RunAdvances(s2, c, d);
    Then(s, s2, Run(s2, c), d);
  }

  lemma {:induction false} AwaitAdvances(s: State, c: nat, d: nat)
    requires Inv(s) && c < |s.cos| && s.cos[c].status.Running? && d < |s.cos|
    requires s.cos[c].script != [] && s.cos[c].script[0].Await?
    ensures Advances(s, Run(s, c), d)
    decreases Work(s.cos), 0
  {
    hide AdvancesBy;
    var e := s.cos[c].script[0].e;
    var s1 := Step(s, c);
    var s2 := if s.events[e].signaled then s1.(log := s1.log + [Read(c, e, s1.events[e].data.value)])
              else Park(s1, c, e);
    if d == c {
      OneOperation(s, s2, c);
    } else {
      Stays(s, s2, d);
    }
    if s.events[e].signaled {
      RunAdvances(s2, c, d);
      Then(s, s2, Run(s2, c), d);
    }
  }

  /** A running coroutine that is left alone runs to an await that suspends it, or to its end. */
  lemma RunStopsAtAwaitOrEnd(s: State, c: nat) returns (k: nat)
    requires Inv(s) && c < |s.cos| && s.cos[c].status.Running?
    ensures AdvancesBy(s, Run(s, c), c, k)
    ensures var co := Run(s, c).cos[c];
            || (co.status.Finished? && k == |s.cos[c].script|)
            || (co.status.Suspended? && k > 0 && s.cos[c].script[k - 1] == Await(co.status.on))
  {
    RunAdvances(s, c, c);
    k :| AdvancesBy(s, Run(s, c), c, k);
  }

  lemma SetOrIsSeen(s: State, e: nat, v: Value)
    requires Inv(s) && e < |s.events|
    ensures Seen(s, SetOr(s, e, v), e, v)
  {
    if !s.events[e].signaled && s.events[e].waiter.Some? {
      SetOrAdvances(s, e, v, s.events[e].waiter.value);
    }
  }

  /** A call from outside does what it says. */
  lemma CallIsPerformed(s: State, call: Call)
    requires Inv(s) && CallOk(s, call)
    ensures var r := Drive1(s, call);
            match call
            case Start(c) => !r.cos[c].status.Fresh?
            case Signal(e, v) => Seen(s, r, e, v)
            case Clear(e) => !r.events[e].signaled
  {
    match call
    case Signal(e, v) => SetOrIsSeen(s, e, v);
    case _ =>
  }

  lemma CallAdvances(s: State, call: Call, d: nat)
    requires Inv(s) && CallOk(s, call) && d < |s.cos|
    ensures Advances(s, Drive1(s, call), d)
  {
    match call
    case Signal(e, v) => SetOrAdvances(s, e, v, d);
    case Clear(e) => Stays(s, ResetEvent(s, e), d);
    case Start(c) =>
      if s.cos[c].status.Fresh? {
        Stays(s, Started(s, c), d);
        RunAdvances(Started(s, c), c, d);
        Then(s, Started(s, c), Run(Started(s, c), c), d);
      } else {
        Stays(s, s, d);
      }
  }

  /** In every state of every run each coroutine has performed, in order, exactly the part of its script that
      is gone; it is suspended at the await it performed last, and it has ended only if it performed all. */
  lemma {:induction false} EveryScriptIsPerformed(states: seq<State>, calls: seq<Call>, i: nat, d: nat)
    requires IsRun(states, calls) && i < |states| && d < |states[0].cos|
    ensures Advances(states[0], states[i], d)
  {
    if i == 0 {
      Stays(states[0], states[0], d);
    } else {
      EveryScriptIsPerformed(states, calls, i - 1, d);
      EveryRunIsSafe(states, calls, i - 1);
      CallAdvances(states[i - 1], calls[i - 1], d);
      Then(states[0], states[i - 1], states[i], d);
    }
  }
}
