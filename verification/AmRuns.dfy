/** Runs of `AmSession` that exist: the flow-control bound is reached in every iteration, and any list of
    sessions, eager or rendezvous, can be served to its end. */
module AmRuns {
  import opened Common
  import opened AmSession

  lemma Extend(states: seq<State>, actions: seq<Action>, a: Action) returns (states': seq<State>, actions': seq<Action>)
    requires IsRun(states, actions) && Enabled(states[|states| - 1], a)
    requires a.LeaveWait? ==> states[|states| - 1].server.frame.Some?
    ensures IsRun(states', actions') && states <= states' && actions' == actions + [a]
    ensures |states'| == |states| + 1 && states'[|states|] == Next(states[|states| - 1], a)
  {
    states' := states + [Next(states[|states| - 1], a)];
    actions' := actions + [a];
    forall i | 0 <= i < |actions'| ensures IsStep(states'[i], actions'[i], states'[i + 1]) {
      if i < |actions| {
        assert IsStep(states[i], actions[i], states[i + 1]);
      }
    }
  }

  /** Iteration k of a rendezvous session has confirmed message k and waits for its data. */
  ghost predicate Confirmed(s: State, k: nat) {
    var v, c, m := s.server, s.client, s.net;
    && m.proto.Rendezvous? && v.pc.Receiving? && v.i == k < s.n && !v.progress && !v.ctxComplete && v.frame.Some?
    && v.receive == Some((v.frame.value, Msg(m.session, k))) && Msg(m.session, k) in v.confirmed
    && c.pc.Sending? && c.i == k && m.sent == m.delivered == k + 1 && v.last == v.complete
  }

  /** Message k + 1 is counted while iteration k still waits for the data of message k. */
  ghost predicate Overtaken(s: State, k: nat) {
    var v, c, m := s.server, s.client, s.net;
    && m.proto.Rendezvous? && v.pc.Receiving? && v.i == k && k + 1 < s.n
    && !v.progress && !v.ctxComplete && v.frame.Some?
    && v.receive == Some((v.frame.value, Msg(m.session, k)))
    && v.isRndv && v.desc == Some(Msg(m.session, k + 1))
    && c.pc.Sending? && c.i == k + 1 && m.sent == m.delivered == k + 2 && v.complete == v.last + 1
  }

  lemma FirstConfirmed(s: State) returns (states: seq<State>, actions: seq<Action>)
    requires Init(s) && s.n > 0
    ensures IsRun(states, actions) && states[0] == s && Confirmed(states[|states| - 1], 0)
  {
    states, actions := [s], [];
    states, actions := Extend(states, actions, NewSession(Rendezvous));
    states, actions := Extend(states, actions, StartIteration);
    states, actions := Extend(states, actions, ClientPost);
    states, actions := Extend(states, actions, ProgressBegin);
    states, actions := Extend(states, actions, DeliverMessage);
    states, actions := Extend(states, actions, ProgressEnd);
    states, actions := Extend(states, actions, LeaveWait(false));
  }

  lemma Overtake(states: seq<State>, actions: seq<Action>, k: nat)
    returns (states': seq<State>, actions': seq<Action>)
    requires IsRun(states, actions) && Confirmed(states[|states| - 1], k) && k + 1 < states[|states| - 1].n
    ensures IsRun(states', actions') && states'[0] == states[0] && Overtaken(states'[|states'| - 1], k)
    ensures states'[|states'| - 1].n == states[|states| - 1].n
  {
    states', actions' := Extend(states, actions, ClientSendDone);
    states', actions' := Extend(states', actions', ClientPost);
    states', actions' := Extend(states', actions', ProgressBegin);
    states', actions' := Extend(states', actions', DeliverMessage);
    states', actions' := Extend(states', actions', ProgressEnd);
  }

  lemma ConfirmNext(states: seq<State>, actions: seq<Action>, k: nat)
    returns (states': seq<State>, actions': seq<Action>)
    requires IsRun(states, actions) && Overtaken(states[|states| - 1], k)
    ensures IsRun(states', actions') && states'[0] == states[0] && Confirmed(states'[|states'| - 1], k + 1)
    ensures states'[|states'| - 1].n == states[|states| - 1].n
  {
    states', actions' := Extend(states, actions, ProgressBegin);
    states', actions' := Extend(states', actions', ReceiveDone);
    states', actions' := Extend(states', actions', ProgressEnd);
    states', actions' := Extend(states', actions', LeaveReceive);
    states', actions' := Extend(states', actions', Finalise);
    states', actions' := Extend(states', actions', StartIteration);
    states', actions' := Extend(states', actions', LeaveWait(false));
  }

  /** The bound of the flow control is tight in every iteration but the last: for every n and k there is a
      run in which the counters differ by one while iteration k waits for its data. */
  lemma {:induction false} EveryIterationMayBeOvertaken(s: State, k: nat)
    returns (states: seq<State>, actions: seq<Action>)
    requires Init(s) && k + 1 < s.n
    ensures IsRun(states, actions) && states[0] == s && Overtaken(states[|states| - 1], k)
    ensures states[|states| - 1].n == s.n
  {
    if k == 0 {
      states, actions := FirstConfirmed(s);
      Reachable(states, actions, |states| - 1);
    } else {
      states, actions := EveryIterationMayBeOvertaken(s, k - 1);
      states, actions := ConfirmNext(states, actions, k - 1);
    }
    states, actions := Overtake(states, actions, k);
  }

  // ---------------------------------------------------------------- whole sessions

  /** Both sides are about to begin iteration k, or the FIN when k == n, and nothing is under way. */
  ghost predicate AtIteration(s: State, k: nat) {
    var v, c, m := s.server, s.client, s.net;
    && v.pc.IterStart? && v.i == k <= s.n && !v.progress && v.last == v.complete
    && !v.connectionClosed && v.receive.None? && v.finSend.None?
    && c.pc.Ready? && c.i == k && c.last == c.complete && m.sent == m.delivered == k
    && !m.finSent && !m.finDelivered
  }

  /** Message k has been counted, and iteration k has left its wait. */
  ghost predicate Counted(s: State, k: nat) {
    var v, c, m := s.server, s.client, s.net;
    && v.i == k < s.n && !v.progress && v.last == v.complete && v.frame.Some?
    && !v.connectionClosed && v.finSend.None?
    && c.pc.Sending? && c.i == k && c.last == c.complete && m.sent == m.delivered == k + 1
    && !m.finSent && !m.finDelivered
    && (m.proto.Rendezvous? ==> Msg(m.session, k) in v.confirmed)
  }

  /** It has the data, or it receives it: under rendezvous the data comes with a second operation. */
  ghost predicate MessageTaken(s: State, k: nat) {
    var v := s.server;
    && Counted(s, k)
    && if s.net.proto.Rendezvous? then v.pc.Receiving? && v.receive.Some? && !v.ctxComplete
       else v.pc.Finalize? && v.receive.None?
  }

  ghost predicate DataTaken(s: State, k: nat) {
    Counted(s, k) && s.server.pc.Finalize? && s.server.receive.None?
  }

  /** Two states of one session of the same system. */
  ghost predicate SameSession(s: State, t: State) {
    t.n == s.n && t.net.session == s.net.session && t.net.proto == s.net.proto
  }

  /** Iteration k waits, and message k is on its way. */
  ghost predicate Posted(s: State, k: nat) {
    var v, c, m := s.server, s.client, s.net;
    && v.pc.WaitMsg? && v.i == k < s.n && !v.progress && v.last == v.complete && v.frame.Some?
    && !v.connectionClosed && v.receive.None? && v.finSend.None? && !v.ctxComplete
    && c.pc.Sending? && c.i == k && c.last == c.complete && m.sent == k + 1 && m.delivered == k
    && !m.finSent && !m.finDelivered
  }

  lemma PostMessage(states: seq<State>, actions: seq<Action>, k: nat)
    returns (states': seq<State>, actions': seq<Action>)
    requires IsRun(states, actions) && AtIteration(states[|states| - 1], k) && k < states[|states| - 1].n
    ensures IsRun(states', actions') && states <= states' && Posted(states'[|states'| - 1], k)
    ensures SameSession(states[|states| - 1], states'[|states'| - 1])
  {
    states', actions' := Extend(states, actions, StartIteration);
    states', actions' := Extend(states', actions', ClientPost);
  }

  lemma TakeMessage(states: seq<State>, actions: seq<Action>, k: nat)
    returns (states': seq<State>, actions': seq<Action>)
    requires IsRun(states, actions) && Posted(states[|states| - 1], k)
    ensures IsRun(states', actions') && states <= states' && MessageTaken(states'[|states'| - 1], k)
    ensures SameSession(states[|states| - 1], states'[|states'| - 1])
  {
    states', actions' := Extend(states, actions, ProgressBegin);
    states', actions' := Extend(states', actions', DeliverMessage);
    states', actions' := Extend(states', actions', ProgressEnd);
    states', actions' := Extend(states', actions', LeaveWait(false));
  }

  lemma TakeData(states: seq<State>, actions: seq<Action>, k: nat)
    returns (states': seq<State>, actions': seq<Action>)
    requires IsRun(states, actions) && MessageTaken(states[|states| - 1], k)
    ensures IsRun(states', actions') && states <= states' && DataTaken(states'[|states'| - 1], k)
    ensures SameSession(states[|states| - 1], states'[|states'| - 1])
  {
    states', actions' := states, actions;
    if states[|states| - 1].net.proto.Rendezvous? {
      states', actions' := Extend(states', actions', ProgressBegin);
      states', actions' := Extend(states', actions', ReceiveDone);
      states', actions' := Extend(states', actions', ProgressEnd);
      states', actions' := Extend(states', actions', LeaveReceive);
    }
  }

  lemma EndIteration(states: seq<State>, actions: seq<Action>, k: nat)
    returns (states': seq<State>, actions': seq<Action>)
    requires IsRun(states, actions) && DataTaken(states[|states| - 1], k)
    ensures IsRun(states', actions') && states <= states' && AtIteration(states'[|states'| - 1], k + 1)
    ensures SameSession(states[|states| - 1], states'[|states'| - 1])
  {
    states', actions' := Extend(states, actions, ClientSendDone);
    states', actions' := Extend(states', actions', Finalise);
  }

  lemma {:induction false} AllIterations(states: seq<State>, actions: seq<Action>, k: nat)
    returns (states': seq<State>, actions': seq<Action>)
    requires IsRun(states, actions) && AtIteration(states[|states| - 1], k)
    ensures IsRun(states', actions') && states <= states'
    ensures AtIteration(states'[|states'| - 1], states[|states| - 1].n)
    ensures SameSession(states[|states| - 1], states'[|states'| - 1])
    decreases states[|states| - 1].n - k
  {
    if k == states[|states| - 1].n {
      states', actions' := states, actions;
    } else {
      states', actions' := PostMessage(states, actions, k);
      states', actions' := TakeMessage(states', actions', k);
      states', actions' := TakeData(states', actions', k);
      states', actions' := EndIteration(states', actions', k);
      states', actions' := AllIterations(states', actions', k + 1);
    }
  }

  /** The client has the FIN; the server's send of it is still open. */
  ghost predicate FinTaken(s: State) {
    var v, c, m := s.server, s.client, s.net;
    && v.pc.FinSending? && !v.progress && !v.ctxComplete && v.finSend.Some? && !v.connectionClosed
    && c.pc.Done? && m.finConfirmed
  }

  lemma ExchangeFin(states: seq<State>, actions: seq<Action>)
    returns (states': seq<State>, actions': seq<Action>)
    requires IsRun(states, actions) && AtIteration(states[|states| - 1], states[|states| - 1].n)
    ensures IsRun(states', actions') && states <= states' && FinTaken(states'[|states'| - 1])
    ensures SameSession(states[|states| - 1], states'[|states'| - 1])
  {
    states', actions' := Extend(states, actions, StartFin(false));
    states', actions' := Extend(states', actions', ClientRegister);
    states', actions' := Extend(states', actions', DeliverFin);
    states', actions' := Extend(states', actions', ClientTakeFin);
    if states[|states| - 1].net.proto.Rendezvous? {
      states', actions' := Extend(states', actions', ClientFinReceived);
    }
  }

  /** The send of the FIN is complete, and the server has seen the client close. */
  ghost predicate FinDone(s: State) {
    var v := s.server;
    v.pc.FinSending? && !v.progress && v.ctxComplete && v.connectionClosed
  }

  lemma FinishFin(states: seq<State>, actions: seq<Action>)
    returns (states': seq<State>, actions': seq<Action>)
    requires IsRun(states, actions) && FinTaken(states[|states| - 1])
    ensures IsRun(states', actions') && states <= states' && FinDone(states'[|states'| - 1])
    ensures SameSession(states[|states| - 1], states'[|states'| - 1])
  {
    states', actions' := Extend(states, actions, ProgressBegin);
    states', actions' := Extend(states', actions', FinSendDone);
    states', actions' := Extend(states', actions', CloseNotice);
    states', actions' := Extend(states', actions', ProgressEnd);
  }

  lemma CloseSession(states: seq<State>, actions: seq<Action>)
    returns (states': seq<State>, actions': seq<Action>)
    requires IsRun(states, actions) && FinDone(states[|states| - 1])
    ensures IsRun(states', actions') && states <= states'
    ensures states'[|states'| - 1].server.pc.Boundary? && !states'[|states'| - 1].server.progress
    ensures SameSession(states[|states| - 1], states'[|states'| - 1])
  {
    states', actions' := Extend(states, actions, LeaveFin);
    states', actions' := Extend(states', actions', LeaveWaitClose);
    states', actions' := Extend(states', actions', CloseDone);
  }

  lemma OpenSession(states: seq<State>, actions: seq<Action>, proto: Proto)
    returns (states': seq<State>, actions': seq<Action>)
    requires IsRun(states, actions)
    requires states[|states| - 1].server.pc.Boundary?
    ensures IsRun(states', actions') && states <= states' && AtIteration(states'[|states'| - 1], 0)
    ensures var t := states'[|states'| - 1];
            t.n == states[0].n && t.net.proto == proto && t.net.session == states[|states| - 1].net.session + 1
  {
    Reachable(states, actions, |states| - 1);
    states', actions' := Extend(states, actions, NewSession(proto));
  }

  /** The sessions of the list have been served in order: each came to its end. */
  ghost predicate Served(states: seq<State>, protos: seq<Proto>) {
    forall k | 0 <= k < |protos| ::
      exists i :: 0 <= i < |states| && states[i].server.pc.Boundary?
                  && states[i].net.session == k + 1 && states[i].net.proto == protos[k]
  }

  lemma ServedAlso(states: seq<State>, states': seq<State>, protos: seq<Proto>)
    requires protos != [] && states <= states' && Served(states, protos[..|protos| - 1]) && states' != []
    requires var t := states'[|states'| - 1];
             t.server.pc.Boundary? && t.net.session == |protos| && t.net.proto == protos[|protos| - 1]
    ensures Served(states', protos)
  {
    forall k | 0 <= k < |protos|
      ensures exists i :: 0 <= i < |states'| && states'[i].server.pc.Boundary?
                          && states'[i].net.session == k + 1 && states'[i].net.proto == protos[k]
    {
      if k < |protos| - 1 {
        assert protos[..|protos| - 1][k] == protos[k];
        var i :| 0 <= i < |states| && states[i].server.pc.Boundary?
                 && states[i].net.session == k + 1 && states[i].net.proto == protos[k];
        assert states'[i] == states[i];
      } else {
        assert states'[|states'| - 1].net.session == k + 1;
      }
    }
  }

  /** Any list of sessions of any length, each eager or rendezvous, has a run that serves them all, one
      after the other, and ends at the session boundary. */
  lemma {:induction false} SessionsCanComplete(s: State, protos: seq<Proto>)
    returns (states: seq<State>, actions: seq<Action>)
    requires Init(s)
    ensures IsRun(states, actions) && states[0] == s && Served(states, protos)
    ensures states[|states| - 1].server.pc.Boundary? && states[|states| - 1].net.session == |protos|
  {
    if protos == [] {
      states, actions := [s], [];
    } else {
      var states0, actions0 := SessionsCanComplete(s, protos[..|protos| - 1]);
      states, actions := OpenSession(states0, actions0, protos[|protos| - 1]);
      states, actions := AllIterations(states, actions, 0);
      states, actions := ExchangeFin(states, actions);
      states, actions := FinishFin(states, actions);
      states, actions := CloseSession(states, actions);
      ServedAlso(states0, states, protos);
    }
  }

  /** In its first wait of an eager session the server has two messages to be delivered. */
  ghost predicate TwoPosted(s: State) {
    var v, m := s.server, s.net;
    && s.n == 2 && m.proto.Eager? && m.session == 1 && m.sent == 2 && m.delivered == 0
    && v.pc.WaitMsg? && v.i == 0 && v.finals == [] && v.last == v.complete && !v.progress && v.frame.Some?
  }

  lemma PostTwo(s: State) returns (states: seq<State>, actions: seq<Action>)
    requires Init(s) && s.n == 2
    ensures IsRun(states, actions) && states[0] == s && TwoPosted(states[|states| - 1])
  {
    states, actions := [s], [];
    states, actions := Extend(states, actions, NewSession(Eager));
    states, actions := Extend(states, actions, StartIteration);
    states, actions := Extend(states, actions, ClientPost);
    states, actions := Extend(states, actions, ClientSendDone);
    states, actions := Extend(states, actions, ClientPost);
  }

  /** The burst: when both messages are delivered in one progress call, iteration 0 finalises message 1. */
  lemma BurstSpoilsIteration(s: State) returns (states: seq<State>, actions: seq<Action>)
    requires Init(s) && s.n == 2
    ensures IsRun(states, actions) && states[0] == s
    ensures var t := states[|states| - 1]; t.net.proto.Eager? && t.server.finals == [Msg(1, 1)]
  {
    states, actions := PostTwo(s);
    states, actions := Extend(states, actions, ProgressBegin);
    states, actions := Extend(states, actions, DeliverMessage);
    states, actions := Extend(states, actions, DeliverMessage);
    states, actions := Extend(states, actions, ProgressEnd);
    states, actions := Extend(states, actions, LeaveWait(false));
    states, actions := Extend(states, actions, Finalise);
  }

  // ---------------------------------------------------------------- the early FIN

  /** The server is through, its FIN is on its way, and the client still waits for its last send. */
  ghost predicate FinEarly(s: State) {
    s.client.pc.Sending? && s.net.finSent && !s.net.finDelivered
  }

  lemma FinishFirst(states: seq<State>, actions: seq<Action>)
    returns (states': seq<State>, actions': seq<Action>)
    requires IsRun(states, actions) && DataTaken(states[|states| - 1], 0) && states[|states| - 1].n == 1
    ensures IsRun(states', actions') && states <= states' && FinEarly(states'[|states'| - 1])
  {
    states', actions' := Extend(states, actions, Finalise);
    states', actions' := Extend(states', actions', StartFin(false));
  }

  /** The FIN can arrive too early: the server answers before the client has registered its handler. */
  lemma FinCanBeDropped(s: State) returns (states: seq<State>, actions: seq<Action>)
    requires Init(s) && s.n == 1
    ensures IsRun(states, actions) && states[0] == s && actions != [] && actions[|actions| - 1].DropFin?
  {
    states, actions := OpenSession([s], [], Eager);
    states, actions := PostMessage(states, actions, 0);
    states, actions := TakeMessage(states, actions, 0);
    Reachable(states, actions, |states| - 1);
    states, actions := TakeData(states, actions, 0);
    states, actions := FinishFirst(states, actions);
    states, actions := Extend(states, actions, DropFin);
  }
}
