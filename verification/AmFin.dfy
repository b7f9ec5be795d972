/** The FIN of a session of `AmSession`: which operations the protocol takes, and what a FIN does that comes
    before the client has registered its handler. */
module AmFin {
  import opened AmSession

  /** Only a rendezvous takes a second operation, for a message as for the FIN; and there it is needed. */
  lemma SecondOperationIffRendezvous(states: seq<State>, actions: seq<Action>, i: nat)
    requires IsRun(states, actions) && i < |actions|
    ensures actions[i].LeaveWait? ==>
              (states[i].net.proto.Rendezvous? <==> states[i + 1].server.pc.Receiving?)
              && (states[i].net.proto.Eager? <==> states[i + 1].server.pc.Finalize?)
    ensures actions[i].ClientTakeFin? ==>
              (states[i].net.proto.Rendezvous? <==> states[i + 1].client.pc.FinReceiving?)
              && (states[i].net.proto.Eager? <==> states[i + 1].client.pc.Done?)
  {
    Reachable(states, actions, i);
    assert IsStep(states[i], actions[i], states[i + 1]);
  }

  /** The FIN was dropped, and the client does not know. */
  ghost predicate FinLost(s: State, session: nat) {
    && s.net.session == session && s.net.finDelivered && s.client.last == s.client.complete
    && (s.client.pc.Sending? || s.client.pc.Ready? || s.client.pc.FinWait?)
    && !s.server.connectionClosed && !s.server.pc.Boundary?
  }

  lemma LostAt(states: seq<State>, actions: seq<Action>, i: nat, session: nat)
    requires IsRun(states, actions) && i < |actions| && (FinLost(states[i], session) || actions[i].DropFin?)
    requires states[i].net.session == session
    ensures FinLost(states[i + 1], session)
  {
    Reachable(states, actions, i);
    var s, a, t := states[i], actions[i], states[i + 1];
    assert IsStep(s, a, t);
    assert t == Next(s, a);
  }

  lemma {:induction false} StaysLost(states: seq<State>, actions: seq<Action>, i: nat, j: nat)
    requires IsRun(states, actions) && i < j < |states| && actions[i].DropFin?
    ensures FinLost(states[j], states[i].net.session)
    decreases j
  {
    if i < j - 1 {
      StaysLost(states, actions, i, j - 1);
    }
    LostAt(states, actions, j - 1, states[i].net.session);
  }

  /** A FIN that arrives before the client has registered its handler is dropped, and then that session never
      ends: the client waits for ever, the server sees no close, and no other client is served. */
  lemma EarlyFinIsFatal(states: seq<State>, actions: seq<Action>, i: nat, j: nat)
    requires IsRun(states, actions) && i < j < |states| && actions[i].DropFin?
    ensures states[j].net.session == states[i].net.session
    ensures !states[j].client.pc.Done? && !states[j].server.connectionClosed && !states[j].server.pc.Boundary?
  {
    StaysLost(states, actions, i, j);
  }

  /** The client is told of the FIN exactly once in a session that ends: it was not dropped. */
  lemma EndedMeansNotDropped(states: seq<State>, actions: seq<Action>, j: nat)
    requires IsRun(states, actions) && j < |states| && (states[j].client.pc.Done? || states[j].server.pc.Boundary?)
    ensures forall i | 0 <= i < j :: !actions[i].DropFin?
  {
    forall i | 0 <= i < j ensures !actions[i].DropFin? {
      if actions[i].DropFin? {
        EarlyFinIsFatal(states, actions, i, j);
      }
    }
  }
}
