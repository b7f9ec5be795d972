/** Which contents the iterations of a session finalise, for every run of `AmSession`. */
module AmContents {
  import opened AmSession

  /** Up to state `i`, no progress call of the session that state belongs to has run two AM callbacks. */
  ghost predicate OneByOne(states: seq<State>, i: nat)
    requires i < |states|
  {
    forall j | 0 <= j <= i && states[j].net.session == states[i].net.session :: states[j].server.deliveredNow <= 1
  }

  /** Whatever the eager callbacks counted and the loop has not taken is in the live buffer. */
  ghost predicate Exact(s: State) {
    var v, m := s.server, s.net;
    && v.finals == Messages(m.session, v.i)
    && (v.pc.WaitMsg? && m.delivered > Taken(s) ==>
          m.delivered == Taken(s) + 1 && v.buffer == Msg(m.session, v.i))
    && (!v.pc.WaitMsg? ==> m.delivered == Taken(s))
    && (v.pc.Finalize? ==> v.buffer == Msg(m.session, v.i))
  }

  ghost predicate Mismatch(s: State) {
    exists k :: 0 <= k < |s.server.finals| && s.server.finals[k] != Msg(s.net.session, k)
  }

  /** An iteration has finalised something else, or one is bound to: a message was counted beyond the one
      the loop takes, so a later iteration finds its wait over before anything was written. */
  ghost predicate Spoilt(s: State) {
    var v, m := s.server, s.net;
    || Mismatch(s)
    || (v.pc.WaitMsg? && m.delivered > Taken(s) + 1)
    || (v.pc.WaitMsg? && m.delivered > Taken(s) && !v.progress && v.buffer == Garbage)
    || (v.pc.Finalize? && (v.buffer != Msg(m.session, v.i) || m.delivered > Taken(s)))
    || (v.pc.IterStart? && m.delivered > Taken(s))
  }

  ghost predicate Sized(s: State) {
    |s.server.finals| == s.server.i
  }

  lemma ExactStep(s: State, a: Action, t: State)
    requires Inv(s) && IsStep(s, a, t) && Inv(t) && s.net.proto.Eager? && !a.NewSession?
    requires Exact(s) && t.server.deliveredNow <= 1
    ensures Exact(t)
  {
    match a
    case Finalise =>
      assert t.server.finals == Messages(t.net.session, t.server.i);
    case _ =>
  }

  lemma SpoiltStep(s: State, a: Action, t: State)
    requires Inv(s) && IsStep(s, a, t) && s.net.proto.Eager? && !a.NewSession? && Sized(s)
    requires Spoilt(s) || t.server.deliveredNow > 1
    requires !Spoilt(s) ==> s.server.deliveredNow <= 1
    ensures Spoilt(t)
  {
    if k :| 0 <= k < |s.server.finals| && s.server.finals[k] != Msg(s.net.session, k) {
      assert t.server.finals[k] == s.server.finals[k];
    } else if a.Finalise? {
      if s.server.buffer != Msg(s.net.session, s.server.i) {
        assert t.server.finals[s.server.i] == s.server.buffer;
      }
    }
  }

  lemma SizedStep(s: State, a: Action, t: State)
    requires Inv(s) && IsStep(s, a, t) && Sized(s)
    ensures Sized(t)
  {
  }

  /** Session numbers only grow. */
  lemma {:induction false} SessionGrows(states: seq<State>, actions: seq<Action>, j: nat, i: nat)
    requires IsRun(states, actions) && j <= i < |states|
    ensures states[j].net.session <= states[i].net.session
    decreases i
  {
    if j < i {
      SessionGrows(states, actions, j, i - 1);
      assert IsStep(states[i - 1], actions[i - 1], states[i]);
    }
  }

  lemma SessionIsNew(states: seq<State>, actions: seq<Action>, i: nat)
    requires IsRun(states, actions) && 0 < i < |states| && actions[i - 1].NewSession?
    ensures OneByOne(states, i) && Exact(states[i])
  {
    Reachable(states, actions, i - 1);
    assert IsStep(states[i - 1], actions[i - 1], states[i]);
    forall j | 0 <= j <= i && states[j].net.session == states[i].net.session
      ensures states[j].server.deliveredNow <= 1
    {
      if j < i {
        SessionGrows(states, actions, j, i - 1);
      }
    }
  }

  lemma OneByOneStep(states: seq<State>, actions: seq<Action>, i: nat)
    requires IsRun(states, actions) && 0 < i < |states| && !actions[i - 1].NewSession?
    ensures states[i].net.session == states[i - 1].net.session && states[i].net.proto == states[i - 1].net.proto
    ensures OneByOne(states, i) <==> OneByOne(states, i - 1) && states[i].server.deliveredNow <= 1
    ensures OneByOne(states, i - 1) ==> states[i - 1].server.deliveredNow <= 1
  {
    assert IsStep(states[i - 1], actions[i - 1], states[i]);
  }

  lemma Step(s: State, a: Action, t: State, oneByOne: bool)
    requires Inv(s) && IsStep(s, a, t) && Inv(t) && s.net.proto.Eager? && !a.NewSession? && Sized(s)
    requires if oneByOne then Exact(s) && s.server.deliveredNow <= 1 else Spoilt(s)
    ensures if oneByOne && t.server.deliveredNow <= 1 then Exact(t) else Spoilt(t)
  {
    if oneByOne && t.server.deliveredNow <= 1 {
      ExactStep(s, a, t);
    } else {
      SpoiltStep(s, a, t);
    }
  }

  lemma OneStep(states: seq<State>, actions: seq<Action>, i: nat)
    requires IsRun(states, actions) && 0 < i < |states| && !actions[i - 1].NewSession?
    requires Sized(states[i - 1]) && states[i - 1].net.proto.Eager?
    requires if OneByOne(states, i - 1) then Exact(states[i - 1]) else Spoilt(states[i - 1])
    ensures if OneByOne(states, i) then Exact(states[i]) else Spoilt(states[i])
  {
    Reachable(states, actions, i);
    Reachable(states, actions, i - 1);
    OneByOneStep(states, actions, i);
    Step(states[i - 1], actions[i - 1], states[i], OneByOne(states, i - 1));
  }

  lemma {:induction false} AllSized(states: seq<State>, actions: seq<Action>, i: nat)
    requires IsRun(states, actions) && i < |states|
    ensures Sized(states[i])
  {
    if i > 0 {
      AllSized(states, actions, i - 1);
      Reachable(states, actions, i - 1);
      SizedStep(states[i - 1], actions[i - 1], states[i]);
    }
  }

  /** Every state of an eager session is exact as long as callbacks came one by one, and spoilt after that. */
  lemma {:induction false} ExactOrSpoilt(states: seq<State>, actions: seq<Action>, i: nat)
    requires IsRun(states, actions) && i < |states| && states[i].net.proto.Eager?
    ensures if OneByOne(states, i) then Exact(states[i]) else Spoilt(states[i])
  {
    if i > 0 {
      if actions[i - 1].NewSession? {
        SessionIsNew(states, actions, i);
      } else {
        OneByOneStep(states, actions, i);
        ExactOrSpoilt(states, actions, i - 1);
        AllSized(states, actions, i - 1);
        OneStep(states, actions, i);
      }
    }
  }

  /** Iteration k finalises exactly message k: always under rendezvous; under eager delivery as long as no
      progress call of the session has run two AM callbacks; and when the server is through with its n
      iterations, if and only if none has. */
  lemma FinalisesExactMessages(states: seq<State>, actions: seq<Action>, i: nat)
    requires IsRun(states, actions) && i < |states|
    ensures var s := states[i];
            (s.net.proto.Rendezvous? || OneByOne(states, i)
             ==> s.server.finals == Messages(s.net.session, s.server.i))
    ensures var s := states[i];
            (s.net.proto.Eager? && s.server.i == s.n
             ==> (s.server.finals == Messages(s.net.session, s.n) <==> OneByOne(states, i)))
  {
    Reachable(states, actions, i);
    if states[i].net.proto.Eager? {
      ExactOrSpoilt(states, actions, i);
    }
  }

  // ---------------------------------------------------------------- order

  /** Messages of one session below `bound`, in order and none twice; buffers nothing was written to may stand
      between them. */
  ghost predicate InOrder(contents: seq<Content>, session: nat, bound: nat) {
    && (forall a | 0 <= a < |contents| && contents[a].Msg? :: contents[a].session == session && contents[a].k < bound)
    && (forall a, b | 0 <= a < b < |contents| && contents[a].Msg? && contents[b].Msg? :: contents[a].k < contents[b].k)
  }

  /** What the iterations so far have finalised, and what the current one would. */
  ghost predicate Ordered(s: State) {
    var v := s.server;
    InOrder(if v.pc.WaitMsg? || v.pc.Finalize? then v.finals + [v.buffer] else v.finals, s.net.session, s.net.delivered)
  }

  lemma OrderedStep(s: State, a: Action, t: State)
    requires Inv(s) && IsStep(s, a, t) && t.net.proto.Eager? && (Ordered(s) || a.NewSession?)
    ensures Ordered(t)
  {
  }

  lemma {:induction false} EagerOrdered(states: seq<State>, actions: seq<Action>, i: nat)
    requires IsRun(states, actions) && i < |states| && states[i].net.proto.Eager?
    ensures Ordered(states[i])
  {
    if i > 0 {
      Reachable(states, actions, i - 1);
      if !actions[i - 1].NewSession? {
        OneByOneStep(states, actions, i);
        EagerOrdered(states, actions, i - 1);
      }
      OrderedStep(states[i - 1], actions[i - 1], states[i]);
    }
  }

  /** Whatever the batching, the iterations of a session finalise its messages in order, and none twice. */
  lemma NoMessageTwice(states: seq<State>, actions: seq<Action>, i: nat)
    requires IsRun(states, actions) && i < |states|
    ensures InOrder(states[i].server.finals, states[i].net.session, states[i].net.delivered)
  {
    Reachable(states, actions, i);
    if states[i].net.proto.Eager? {
      EagerOrdered(states, actions, i);
      var v := states[i].server;
      assert forall a | 0 <= a < |v.finals| :: (v.finals + [v.buffer])[a] == v.finals[a];
    }
  }
}
