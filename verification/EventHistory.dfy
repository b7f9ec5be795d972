/** What a history of events and coroutines promises, stated on the history alone, and the proof that
    every history the operations of `Events` produce keeps that promise. */
module EventHistory {
  import opened Common
  import opened Events

  /** The value most recently accepted by event `e`. */
  function LastAccepted(log: seq<Entry>, e: nat): Option<Value> {
    if log == [] then None
    else
      var x := log[|log| - 1];
      if x.Accepted? && x.e == e then Some(x.v) else LastAccepted(log[..|log| - 1], e)
  }

  /** The coroutine that suspended last on event `e` since `e` last accepted a value. */
  function Waiting(log: seq<Entry>, e: nat): Option<nat> {
    if log == [] then None
    else
      var x := log[|log| - 1];
      if x.Accepted? && x.e == e then None
      else if x.Parked? && x.e == e then Some(x.c)
      else Waiting(log[..|log| - 1], e)
  }

  /** Whether event `e` is signalled: it accepted a value and was not reset since. */
  function Signaled(log: seq<Entry>, e: nat): bool {
    if log == [] then false
    else
      var x := log[|log| - 1];
      if x.Accepted? && x.e == e then true
      else if x.Reset? && x.e == e then false
      else Signaled(log[..|log| - 1], e)
  }

  /** The event coroutine `c` is suspended on. */
  function ParkedOn(log: seq<Entry>, c: nat): Option<nat> {
    if log == [] then None
    else
      var x := log[|log| - 1];
      if x.Parked? && x.c == c then Some(x.e)
      else if x.Resumed? && x.c == c then None
      else ParkedOn(log[..|log| - 1], c)
  }

  /** The coroutine the last entry of the history obliges to run next. */
  function Due(log: seq<Entry>): Option<nat> {
    if log == [] then None
    else
      var x := log[|log| - 1];
      if x.Accepted? then Waiting(log[..|log| - 1], x.e) else None
  }

  /** The promise made by an entry `x` that comes after `log`. */
  ghost predicate EntryOk(log: seq<Entry>, x: Entry) {
    && (Due(log).Some? ==> x == Resumed(Due(log).value, log[|log| - 1].e))
    && match x
       case Accepted(e, v) => !Signaled(log, e)
       case Reset(e) => Signaled(log, e)
       case Refused(e, v) => Signaled(log, e)
       case Parked(c, e) => ParkedOn(log, c).None? && !Signaled(log, e)
       case Resumed(c, e) =>
         && Due(log) == Some(c) && log[|log| - 1].e == e
         && ParkedOn(log, c) == Some(e)
       case Read(c, e, v) => LastAccepted(log, e) == Some(v) && Signaled(log, e) && ParkedOn(log, c).None?
  }

  ghost predicate Faithful(log: seq<Entry>) {
    forall i | 0 <= i < |log| :: EntryOk(log[..i], log[i])
  }

  lemma Snoc(log: seq<Entry>, x: Entry)
    ensures (log + [x])[..|log|] == log
    ensures forall i | 0 <= i <= |log| :: (log + [x])[..i] == log[..i]
    ensures forall e: nat :: LastAccepted(log + [x], e) ==
              if x.Accepted? && x.e == e then Some(x.v) else LastAccepted(log, e)
    ensures forall e: nat :: Waiting(log + [x], e) ==
              if x.Accepted? && x.e == e then None
              else if x.Parked? && x.e == e then Some(x.c) else Waiting(log, e)
    ensures forall e: nat :: Signaled(log + [x], e) ==
              if x.Accepted? && x.e == e then true
              else if x.Reset? && x.e == e then false else Signaled(log, e)
    ensures forall c: nat :: ParkedOn(log + [x], c) ==
              if x.Parked? && x.c == c then Some(x.e)
              else if x.Resumed? && x.c == c then None else ParkedOn(log, c)
    ensures Due(log + [x]) == if x.Accepted? then Waiting(log, x.e) else None
  {
    assert (log + [x])[..|log|] == log;
    forall i | 0 <= i <= |log| ensures (log + [x])[..i] == log[..i] { }
  }

  lemma FaithfulSnoc(log: seq<Entry>, x: Entry)
    requires Faithful(log) && EntryOk(log, x)
    ensures Faithful(log + [x])
  {
    Snoc(log, x);
    var l := log + [x];
    forall i | 0 <= i < |l| ensures EntryOk(l[..i], l[i]) {
      if i == |log| { assert l[..i] == log; } else { assert l[..i] == log[..i]; }
    }
  }

  /** The state and the history tell the same story. */
  ghost predicate Told(s: State) {
    && Faithful(s.log) && Due(s.log).None?
    && (forall e | 0 <= e < |s.events| :: s.events[e].data == LastAccepted(s.log, e))
    && (forall e | 0 <= e < |s.events| :: s.events[e].signaled == Signaled(s.log, e))
    && (forall e | 0 <= e < |s.events| :: Waiting(s.log, e) ==
          if s.events[e].signaled then None else s.events[e].waiter)
    && (forall c | 0 <= c < |s.cos| ::
          ParkedOn(s.log, c) == if s.cos[c].status.Suspended? then Some(s.cos[c].status.on) else None)
    && (forall c: nat | c >= |s.cos| :: ParkedOn(s.log, c).None?)
  }

  lemma WakeTold(s: State, e: nat, v: Value, c: nat)
    requires Inv(s) && Told(s) && e < |s.events| && !s.events[e].signaled && s.events[e].waiter == Some(c)
    ensures Told(Accept(s, e, v))
  {
    var l1 := s.log + [Accepted(e, v)];
    FaithfulSnoc(s.log, Accepted(e, v));
    Snoc(s.log, Accepted(e, v));
    var l2 := l1 + [Resumed(c, e)];
    FaithfulSnoc(l1, Resumed(c, e));
    Snoc(l1, Resumed(c, e));
    FaithfulSnoc(l2, Read(c, e, v));
    Snoc(l2, Read(c, e, v));
    assert l2 + [Read(c, e, v)] == Accept(s, e, v).log;
  }

  lemma AcceptTold(s: State, e: nat, v: Value)
    requires Inv(s) && Told(s) && e < |s.events| && !s.events[e].signaled
    ensures Told(Accept(s, e, v))
  {
    FaithfulSnoc(s.log, Accepted(e, v));
    Snoc(s.log, Accepted(e, v));
    if s.events[e].waiter.Some? {
      WakeTold(s, e, v, s.events[e].waiter.value);
    }
  }

  lemma ParkTold(s: State, c: nat, e: nat)
    requires Inv(s) && Told(s) && c < |s.cos| && s.cos[c].status.Running?
    requires e < |s.events| && !s.events[e].signaled
    ensures Told(Park(s, c, e))
  {
    Snoc(s.log, Parked(c, e));
    FaithfulSnoc(s.log, Parked(c, e));
  }

  lemma QuietEntryTold(s: State, x: Entry)
    requires Inv(s) && Told(s) && (x.Refused? || x.Read?) && EntryOk(s.log, x)
    ensures Told(s.(log := s.log + [x]))
  {
    Snoc(s.log, x);
    FaithfulSnoc(s.log, x);
  }

  lemma ResetTold(s: State, e: nat)
    requires Inv(s) && Told(s) && e < |s.events| && s.events[e].signaled
    ensures Told(s.(events := s.events[e := s.events[e].(waiter := None, signaled := false)],
                    log := s.log + [Reset(e)]))
  {
    Snoc(s.log, Reset(e));
    FaithfulSnoc(s.log, Reset(e));
  }

  lemma StepTold(s: State, c: nat)
    requires Inv(s) && Told(s) && c < |s.cos| && s.cos[c].status.Running? && s.cos[c].script != []
    ensures Told(Step(s, c))
  {
  }

  lemma FinishTold(s: State, c: nat)
    requires Inv(s) && Told(s) && c < |s.cos| && s.cos[c].status.Running?
    ensures Told(Finish(s, c))
  {
  }

  lemma {:induction false} SetOrTold(s: State, e: nat, v: Value)
    requires Inv(s) && Told(s) && e < |s.events|
    ensures Told(SetOr(s, e, v))
    decreases Work(s.cos), 1
  {
    if s.events[e].signaled {
      QuietEntryTold(s, Refused(e, v));
    } else {
      AcceptTold(s, e, v);
      match s.events[e].waiter
      case None =>
      case Some(c) =>
        RunTold(Accept(s, e, v), c);
        ResetTold(Run(Accept(s, e, v), c), e);
    }
  }

  lemma {:induction false} RunTold(s: State, c: nat)
    requires Inv(s) && Told(s) && c < |s.cos| && s.cos[c].status.Running?
    ensures Told(Run(s, c))
    decreases Work(s.cos), 0
  {
    if s.cos[c].script == [] {
      FinishTold(s, c);
    } else {
      var s1 := Step(s, c);
      StepTold(s, c);
      match s.cos[c].script[0]
      case Set(e, v) =>
        SetOrTold(s1, e, v);
        RunTold(SetOr(s1, e, v), c);
      case Await(e) =>
        if s.events[e].signaled {
          var x := Read(c, e, s1.events[e].data.value);
          QuietEntryTold(s1, x);
          RunTold(s1.(log := s1.log + [x]), c);
        } else {
          ParkTold(s1, c, e);
        }
    }
  }
}
