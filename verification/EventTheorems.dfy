/** The properties of the auto-reset event over whole runs: an outside world (callbacks of the worker,
    calls of coroutine functions) drives any number of events and coroutines. */
module EventTheorems {
  import opened Common
  import opened Events
  import opened EventHistory

  /** What the single thread outside the coroutines does: it starts a coroutine, signals, or resets. */
  datatype Call = Start(c: nat) | Signal(e: nat, v: Value) | Clear(e: nat)

  /** A call that is possible in `s`. Outside every `set_or` no signalled event holds a handle, so there
      any event may be reset. */
  ghost predicate CallOk(s: State, call: Call) {
    match call
    case Start(c) => c < |s.cos|
    case Signal(e, v) => e < |s.events|
    case Clear(e) => e < |s.events| && !(s.events[e].signaled && s.events[e].waiter.Some?)
  }

  ghost predicate Initial(s: State) {
    && (forall e | 0 <= e < |s.events| :: s.events[e] == Event(false, None, None))
    && (forall c | 0 <= c < |s.cos| :: s.cos[c].status.Fresh? && ScriptOk(s.cos[c].script, |s.events|))
    && s.log == []
  }

  ghost function Started(s: State, c: nat): (r: State)
    requires Inv(s) && c < |s.cos| && s.cos[c].status.Fresh?
    ensures Inv(r) && |r.cos| == |s.cos| && r.cos[c].status.Running?
  {
    s.(cos := s.cos[c := s.cos[c].(status := Running)])
  }

  /** One call from outside. A coroutine frame is started at most once. */
  ghost function Drive1(s: State, call: Call): (r: State)
    requires Inv(s) && CallOk(s, call)
    ensures Inv(r) && |r.events| == |s.events| && |r.cos| == |s.cos|
  {
    match call
    case Signal(e, v) => SetOr(s, e, v)
    case Clear(e) => ResetEvent(s, e)
    case Start(c) =>
      if s.cos[c].status.Fresh? then Run(Started(s, c), c) else s
  }

  /** A run: the first state, and the state after each call of the list. */
  ghost predicate IsRun(states: seq<State>, calls: seq<Call>) {
    && |states| == |calls| + 1 && Initial(states[0])
    && forall i | 0 <= i < |calls| ::
         Inv(states[i]) ==> CallOk(states[i], calls[i]) && states[i + 1] == Drive1(states[i], calls[i])
  }

  lemma ClearTold(s: State, e: nat)
    requires Inv(s) && Told(s) && CallOk(s, Clear(e))
    ensures Told(ResetEvent(s, e))
  {
    if s.events[e].signaled {
      Snoc(s.log, Reset(e));
      FaithfulSnoc(s.log, Reset(e));
    }
  }

  lemma StartTold(s: State, c: nat)
    requires Inv(s) && Told(s) && c < |s.cos| && s.cos[c].status.Fresh?
    ensures Told(Run(Started(s, c), c))
  {
    assert Told(Started(s, c));
    RunTold(Started(s, c), c);
  }

  lemma CallKeeps(s: State, call: Call)
    requires Inv(s) && Quiet(s) && Told(s) && CallOk(s, call)
    ensures var r := Drive1(s, call); Inv(r) && Quiet(r) && Told(r)
    ensures var r := Drive1(s, call);
            && |r.events| == |s.events| && |r.cos| == |s.cos|
            && (forall e | 0 <= e < |s.events| && s.events[e].signaled && call != Clear(e) ::
                  r.events[e] == s.events[e])
            && (forall c | 0 <= c < |s.cos| && s.cos[c].status.Finished? :: r.cos[c] == s.cos[c])
  {
    hide Told;
    match call
    case Signal(e, v) => SetOrTold(s, e, v);
    case Clear(e) => ClearTold(s, e);
    case Start(c) =>
      if s.cos[c].status.Fresh? {
        StartTold(s, c);
      }
  }

  /** Safety over every run: between calls nothing is left half-signalled, every stored handle is that
      of a coroutine suspended on the event, every signalled event has its value, and the history keeps
      its promises. No assumption is made on how many coroutines await one event. */
  lemma {:induction false} EveryRunIsSafe(states: seq<State>, calls: seq<Call>, i: nat)
    requires IsRun(states, calls) && i < |states|
    ensures Inv(states[i]) && Quiet(states[i]) && Told(states[i])
  {
    if i == 0 {
    } else {
      EveryRunIsSafe(states, calls, i - 1);
      CallKeeps(states[i - 1], calls[i - 1]);
    }
  }

  /** An event that was signalled when no coroutine waited does not reset by itself: it keeps its first
      value, and it stays signalled, through every later call but a reset of this very event. */
  lemma {:induction false} SignalledStaysSignalled(states: seq<State>, calls: seq<Call>, i: nat, j: nat, e: nat)
    requires IsRun(states, calls) && i <= j < |states|
    requires e < |states[i].events| && states[i].events[e].signaled
    requires forall k | i <= k < j :: calls[k] != Clear(e)
    ensures e < |states[j].events| && states[j].events[e] == states[i].events[e]
    decreases j
  {
    if i < j {
      SignalledStaysSignalled(states, calls, i, j - 1, e);
      EveryRunIsSafe(states, calls, j - 1);
      CallKeeps(states[j - 1], calls[j - 1]);
    }
  }

  /** The nest unwinds, and its length is paid for by the script operations it consumes. */
  lemma {:induction false} SetOrCost(s: State, e: nat, v: Value)
    requires Inv(s) && e < |s.events|
    ensures var r := SetOr(s, e, v); |r.log| <= |s.log| + 4 + 4 * (Work(s.cos) - Work(r.cos))
    decreases Work(s.cos), 1
  {
    if !s.events[e].signaled && s.events[e].waiter.Some? {
      RunCost(Accept(s, e, v), s.events[e].waiter.value);
    }
  }

  lemma {:induction false} RunCost(s: State, c: nat)
    requires Inv(s) && c < |s.cos| && s.cos[c].status.Running?
    ensures var r := Run(s, c); |r.log| <= |s.log| + 4 * (Work(s.cos) - Work(r.cos))
    decreases Work(s.cos), 0
  {
    if s.cos[c].script != [] {
      var s1 := Step(s, c);
      match s.cos[c].script[0]
      case Set(e, v) =>
        SetOrCost(s1, e, v);
        RunCost(SetOr(s1, e, v), c);
      case Await(e) =>
        if s.events[e].signaled {
          RunCost(s1.(log := s1.log + [Read(c, e, s1.events[e].data.value)]), c);
        }
    }
  }

  // ---------------------------------------------------------------- reading the history

  /** Entry `p` is a suspension, and no later entry before `i` suspends or resumes the same coroutine. */
  ghost predicate StillParked(log: seq<Entry>, p: nat, i: nat) {
    && p < i <= |log| && log[p].Parked?
    && forall k | p < k < i :: !((log[k].Parked? || log[k].Resumed?) && log[k].c == log[p].c)
  }

  /** Entry `p` is a suspension on an event that neither accepts nor gets another waiter before `i`. */
  ghost predicate StillWaiter(log: seq<Entry>, p: nat, i: nat) {
    && p < i <= |log| && log[p].Parked?
    && forall k | p < k < i :: !((log[k].Parked? || log[k].Accepted?) && log[k].e == log[p].e)
  }

  lemma {:induction false} ParkedOnAt(log: seq<Entry>, p: nat, i: nat)
    requires StillParked(log, p, i)
    ensures ParkedOn(log[..i], log[p].c) == Some(log[p].e)
    decreases i
  {
    assert log[..i][..i - 1] == log[..i - 1];
    if p < i - 1 { ParkedOnAt(log, p, i - 1); }
  }

  lemma {:induction false} WaitingAt(log: seq<Entry>, p: nat, i: nat)
    requires StillWaiter(log, p, i)
    ensures Waiting(log[..i], log[p].e) == Some(log[p].c)
    decreases i
  {
    assert log[..i][..i - 1] == log[..i - 1];
    if p < i - 1 { WaitingAt(log, p, i - 1); }
  }

  lemma {:induction false} WaitingFrom(log: seq<Entry>, e: nat, i: nat) returns (p: nat)
    requires i <= |log| && Waiting(log[..i], e).Some?
    ensures StillWaiter(log, p, i) && log[p] == Parked(Waiting(log[..i], e).value, e)
    decreases i
  {
    assert log[..i][..i - 1] == log[..i - 1];
    if log[i - 1].Parked? && log[i - 1].e == e {
      p := i - 1;
    } else {
      p := WaitingFrom(log, e, i - 1);
    }
  }

  lemma {:induction false} AcceptedFrom(log: seq<Entry>, e: nat, i: nat) returns (a: nat)
    requires i <= |log| && LastAccepted(log[..i], e).Some?
    ensures a < i && log[a] == Accepted(e, LastAccepted(log[..i], e).value)
    ensures forall k | a < k < i :: !(log[k].Accepted? && log[k].e == e)
    decreases i
  {
    assert log[..i][..i - 1] == log[..i - 1];
    if log[i - 1].Accepted? && log[i - 1].e == e {
      a := i - 1;
    } else {
      a := AcceptedFrom(log, e, i - 1);
    }
  }

  /** An earlier acceptance of event `e` that was not reset before entry `i`. */
  ghost predicate HeldFrom(log: seq<Entry>, e: nat, a: nat, i: nat) {
    && a < i <= |log| && log[a].Accepted? && log[a].e == e
    && forall k | a < k < i :: !(log[k].Reset? && log[k].e == e)
  }

  lemma {:induction false} SignaledIffHeld(log: seq<Entry>, e: nat, i: nat)
    requires i <= |log|
    ensures Signaled(log[..i], e) <==> exists a: nat :: HeldFrom(log, e, a, i)
    decreases i
  {
    if i > 0 {
      var j := i - 1;
      assert log[..i][..j] == log[..j];
      SignaledIffHeld(log, e, j);
      if log[j].Accepted? && log[j].e == e {
        assert HeldFrom(log, e, j, i);
      } else if a: nat :| HeldFrom(log, e, a, j) {
        assert (log[j].Reset? && log[j].e == e) || HeldFrom(log, e, a, i);
      }
      if a: nat :| HeldFrom(log, e, a, i) {
        assert a == j || HeldFrom(log, e, a, j);
      }
    }
  }

  /** A `set_or` is refused exactly if the event still holds an earlier value. */
  lemma RefusedIffHeld(log: seq<Entry>, i: nat)
    requires Faithful(log) && i < |log| && (log[i].Accepted? || log[i].Refused?)
    ensures log[i].Refused? <==> exists a: nat :: HeldFrom(log, log[i].e, a, i)
  {
    assert EntryOk(log[..i], log[i]);
    SignaledIffHeld(log, log[i].e, i);
  }

  /** Every read returns the value its event accepted last, and the event had accepted one. */
  lemma ReadsLatest(log: seq<Entry>, i: nat)
    requires Faithful(log) && i < |log| && log[i].Read?
    ensures exists a :: 0 <= a < i && log[a] == Accepted(log[i].e, log[i].v)
                        && forall k | a < k < i :: !(log[k].Accepted? && log[k].e == log[i].e)
  {
    assert EntryOk(log[..i], log[i]);
    var a := AcceptedFrom(log, log[i].e, i);
  }

  /** While a coroutine stays suspended, the only entry of its own that can follow is its resumption,
      and that is by the event it is suspended on. */
  lemma {:induction false} NextIsResume(log: seq<Entry>, p: nat, i: nat)
    requires Faithful(log) && StillParked(log, p, i) && i < |log|
    ensures !(log[i].Parked? && log[i].c == log[p].c)
    ensures !(log[i].Read? && log[i].c == log[p].c)
    ensures log[i].Resumed? && log[i].c == log[p].c ==>
              log[i].e == log[p].e && log[i - 1].Accepted? && log[i - 1].e == log[p].e
  {
    ParkedOnAt(log, p, i);
    assert EntryOk(log[..i], log[i]);
    assert log[..i][|log[..i]| - 1] == log[i - 1];
  }

  lemma {:induction false} WaiterIsParked(log: seq<Entry>, p: nat, i: nat)
    requires Faithful(log) && StillWaiter(log, p, i)
    ensures StillParked(log, p, i)
    decreases i
  {
    if p < i - 1 {
      WaiterIsParked(log, p, i - 1);
      NextIsResume(log, p, i - 1);
    }
  }

  /** The latest waiter of an event is still suspended: only an acceptance by that event resumes it. */
  lemma {:induction false} ParkedUntil(log: seq<Entry>, p: nat, i: nat)
    requires Faithful(log) && 0 < i <= |log| && StillWaiter(log, p, i - 1)
    requires log[i - 1].Accepted?
    ensures StillParked(log, p, i)
  {
    WaiterIsParked(log, p, i - 1);
  }

  /** A resumption always answers exactly one suspension: there is a suspension of the same coroutine on
      the same event before it, it is unanswered until then, and it is the only such one. */
  lemma ResumeAnswersOnePark(log: seq<Entry>, i: nat) returns (p: nat)
    requires Faithful(log) && i < |log| && log[i].Resumed?
    ensures StillParked(log, p, i) && StillWaiter(log, p, i - 1) && log[p] == Parked(log[i].c, log[i].e)
    ensures forall q: nat | StillParked(log, q, i) && log[q].c == log[i].c :: q == p
  {
    assert EntryOk(log[..i], log[i]);
    var prev := log[..i];
    assert prev[|prev| - 1] == log[i - 1] && prev[..|prev| - 1] == log[..i - 1];
    p := WaitingFrom(log, log[i].e, i - 1);
    ParkedUntil(log, p, i);
  }

  lemma {:induction false} NoPark(log: seq<Entry>, p: nat, i: nat)
    requires Faithful(log) && p < i <= |log| && log[p].Parked?
    requires forall k | p < k < i :: !(log[k].Resumed? && log[k].c == log[p].c)
    ensures StillParked(log, p, i)
    decreases i
  {
    if p < i - 1 {
      NoPark(log, p, i - 1);
      NextIsResume(log, p, i - 1);
    }
  }

  /** The first resumption after a suspension comes right after the first acceptance by its event. */
  lemma {:induction false} FirstResume(log: seq<Entry>, p: nat, i: nat) returns (j: nat)
    requires Faithful(log) && p < i < |log| && log[p].Parked?
    requires log[i].Resumed? && log[i].c == log[p].c
    ensures j < i && StillWaiter(log, p, j) && log[j].Accepted? && log[j].e == log[p].e
    decreases i
  {
    if k :| p < k < i && log[k].Resumed? && log[k].c == log[p].c {
      j := FirstResume(log, p, k);
    } else {
      NoPark(log, p, i);
      NextIsResume(log, p, i);
      var q := ResumeAnswersOnePark(log, i);
      j := i - 1;
    }
  }

  /** Entry `j` is the first acceptance after suspension `p` by its event, with no other waiter between. */
  ghost predicate AnsweredAt(log: seq<Entry>, p: nat, j: nat) {
    j < |log| && StillWaiter(log, p, j) && log[j].Accepted? && log[j].e == log[p].e
  }

  ghost predicate ResumedAt(log: seq<Entry>, p: nat, i: nat) {
    p < i < |log| && log[i].Resumed? && (log[p].Parked? ==> log[i].c == log[p].c)
  }

  lemma DueAt(log: seq<Entry>, p: nat, j: nat)
    requires AnsweredAt(log, p, j)
    ensures Due(log[..j + 1]) == Some(log[p].c)
  {
    WaitingAt(log, p, j);
    assert log[..j + 1][..j] == log[..j];
  }

  lemma FirstAcceptResumes(log: seq<Entry>, p: nat, j: nat)
    requires Faithful(log) && Due(log).None? && AnsweredAt(log, p, j)
    ensures j + 1 < |log| && log[j + 1] == Resumed(log[p].c, log[p].e) && StillParked(log, p, j + 1)
  {
    assert log[..|log|] == log;
    DueAt(log, p, j);
    assert EntryOk(log[..j + 1], log[j + 1]);
    ParkedUntil(log, p, j + 1);
  }

  /** A coroutine suspended at entry `p` is ever resumed if and only if its event accepts a value
      before another coroutine suspends on the same event; then it is the first acceptance after the
      suspension that resumes it, at once. */
  lemma ResumedIffNotOverwritten(log: seq<Entry>, p: nat)
    requires Faithful(log) && Due(log).None? && p < |log| && log[p].Parked?
    ensures (exists i :: ResumedAt(log, p, i)) <==> (exists j: nat :: AnsweredAt(log, p, j))
    ensures forall j: nat | AnsweredAt(log, p, j) ::
              j + 1 < |log| && log[j + 1] == Resumed(log[p].c, log[p].e) && StillParked(log, p, j + 1)
  {
    forall j: nat | AnsweredAt(log, p, j)
      ensures j + 1 < |log| && log[j + 1] == Resumed(log[p].c, log[p].e) && StillParked(log, p, j + 1)
      ensures ResumedAt(log, p, j + 1)
    {
      FirstAcceptResumes(log, p, j);
    }
    if i :| ResumedAt(log, p, i) {
      var j := FirstResume(log, p, i);
      assert AnsweredAt(log, p, j);
    }
  }

  /** No coroutine suspends on an event while another is suspended on it. */
  ghost predicate OneWaiter(log: seq<Entry>) {
    forall p: nat, q: nat | StillParked(log, p, q) && q < |log| && log[q].Parked? :: log[q].e != log[p].e
  }

  lemma {:induction false} SoleWaiter(log: seq<Entry>, p: nat, j: nat)
    requires Faithful(log) && OneWaiter(log) && p < j <= |log| && log[p].Parked?
    requires forall k | p < k < j :: !(log[k].Accepted? && log[k].e == log[p].e)
    ensures StillWaiter(log, p, j)
    decreases j
  {
    if p < j - 1 {
      SoleWaiter(log, p, j - 1);
      WaiterIsParked(log, p, j - 1);
    }
  }

  /** With at most one suspended waiter per event, the first acceptance after a suspension resumes it. */
  lemma FirstSetResumesSoleWaiter(log: seq<Entry>, p: nat, j: nat)
    requires Faithful(log) && Due(log).None? && OneWaiter(log)
    requires p < j < |log| && log[p].Parked? && log[j].Accepted? && log[j].e == log[p].e
    requires forall k | p < k < j :: !(log[k].Accepted? && log[k].e == log[p].e)
    ensures j + 1 < |log| && log[j + 1] == Resumed(log[p].c, log[p].e) && StillParked(log, p, j + 1)
  {
    SoleWaiter(log, p, j);
    assert AnsweredAt(log, p, j);
    FirstAcceptResumes(log, p, j);
  }
}
