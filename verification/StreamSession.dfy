/** The stream exchange of one client and one server: n payloads forward, one FIN backward, over two FIFO
    byte channels that may carry any piece of a message at a time. A channel stands for everything
    between the sender's buffer and the receiver's buffer. */
module StreamSession {
  import opened Common

  datatype ClientPc =
    | Ready
    | Sending               // request_wait on the send
    | FinReceiving(got: Bytes)
    | Returned(ret: int)

  datatype ServerPc =
    | Waiting               // before the next call
    | Receiving(got: Bytes)
    | FinSending            // request_wait on the FIN
    | WaitClose
    | Ended(ret: int)

  /** `payloads` are what the client fills its buffers with, `fin` what the server fills the FIN with;
      `received` are the buffers the server finalised with success, `finReceived` the client's. `off` and
      `finOff` count the bytes of the current message already in the channel. */
  datatype State = State(
    len: nat, payloads: seq<Bytes>, fin: Bytes,
    client: ClientPc, sent: nat, off: nat, finReceived: seq<Bytes>,
    server: ServerPc, received: seq<Bytes>, finOff: nat,
    toServer: Bytes, toClient: Bytes)

  datatype Action =
    | ClientPost | ClientPush(k: nat) | ClientSendDone | ClientFail
    | ClientFinPost | ClientFinPull(k: nat) | ClientFinDone
    | ServerPost | ServerPull(k: nat) | ServerReceiveDone | ServerFail
    | ServerFinPost | ServerFinPush(k: nat) | ServerFinDone | ServerSeesClose

  /** What both sides agree on: the same iteration count, and messages of the same length. */
  ghost predicate Configured(s: State) {
    (forall k | 0 <= k < |s.payloads| :: |s.payloads[k]| == s.len) && |s.fin| == s.len
  }

  ghost predicate Init(s: State) {
    && Configured(s) && s.client.Ready? && s.sent == 0 && s.off == 0 && s.finReceived == []
    && s.server.Waiting? && s.received == [] && s.finOff == 0 && s.toServer == [] && s.toClient == []
  }

  ghost predicate Enabled(s: State, a: Action) {
    match a
    case ClientPost => s.client.Ready? && s.sent < |s.payloads|
    case ClientPush(k) =>
      s.client.Sending? && s.sent < |s.payloads| && s.off + k <= |s.payloads[s.sent]|
    case ClientSendDone => s.client.Sending? && s.off == s.len
    case ClientFail => !s.client.Returned?
    case ClientFinPost => s.client.Ready? && !(s.sent < |s.payloads|)
    case ClientFinPull(k) => s.client.FinReceiving? && k <= |s.toClient| && |s.client.got| + k <= s.len
    case ClientFinDone => s.client.FinReceiving? && |s.client.got| == s.len
    case ServerPost => s.server.Waiting? && |s.received| < |s.payloads|
    case ServerPull(k) => s.server.Receiving? && k <= |s.toServer| && |s.server.got| + k <= s.len
    case ServerReceiveDone => s.server.Receiving? && |s.server.got| == s.len
    case ServerFail => !s.server.Ended?
    case ServerFinPost => s.server.Waiting? && !(|s.received| < |s.payloads|)
    case ServerFinPush(k) => s.server.FinSending? && s.finOff + k <= |s.fin|
    case ServerFinDone => s.server.FinSending? && s.finOff == s.len
    case ServerSeesClose => s.server.WaitClose? && s.client.Returned?
  }

  ghost function Next(s: State, a: Action): State
    requires Enabled(s, a)
  {
    match a
    case ClientPost => s.(client := Sending)
    case ClientPush(k) =>
      s.(off := s.off + k,
         toServer := s.toServer + s.payloads[s.sent][s.off..s.off + k])
    case ClientSendDone => s.(client := Ready, sent := s.sent + 1, off := 0)
    case ClientFail => s.(client := Returned(-1))
    case ClientFinPost => s.(client := FinReceiving([]))
    case ClientFinPull(k) =>
      s.(client := FinReceiving(s.client.got + s.toClient[..k]), toClient := s.toClient[k..])
    case ClientFinDone => s.(client := Returned(0), finReceived := s.finReceived + [s.client.got])
    case ServerPost => s.(server := Receiving([]))
    case ServerPull(k) =>
      s.(server := Receiving(s.server.got + s.toServer[..k]), toServer := s.toServer[k..])
    case ServerReceiveDone => s.(server := Waiting, received := s.received + [s.server.got])
    case ServerFail => s.(server := Ended(-1))
    case ServerFinPost => s.(server := FinSending)
    case ServerFinPush(k) =>
      s.(finOff := s.finOff + k, toClient := s.toClient + s.fin[s.finOff..s.finOff + k])
    case ServerFinDone => s.(server := WaitClose)
    case ServerSeesClose => s.(server := Ended(0))
  }

  // ---------------------------------------------------------------- the joint invariant

  /** The bytes of the payloads from message `i` up to `off` bytes of message `j`. */
  function Between(payloads: seq<Bytes>, i: nat, j: nat, off: nat): Bytes
    decreases j - i
  {
    if i < j then (if i < |payloads| then payloads[i] else []) + Between(payloads, i + 1, j, off)
    else if i == j && j < |payloads| && off <= |payloads[j]| then payloads[j][..off]
    else []
  }

  function Got(s: State): Bytes {
    if s.server.Receiving? then s.server.got else []
  }

  function FinGot(s: State): Bytes {
    if s.client.FinReceiving? then s.client.got else []
  }

  ghost predicate Positions(s: State) {
    && s.sent <= |s.payloads| && |s.received| <= |s.payloads| && s.off <= s.len && s.finOff <= s.len
    && (s.client.Sending? || s.off > 0 ==> s.sent < |s.payloads|)
    && (s.client.Ready? || s.client.FinReceiving? ==> s.off == 0)
    && (s.server.Receiving? ==> |s.received| < |s.payloads| && |s.server.got| <= s.len)
    && (s.client.FinReceiving? || s.client == Returned(0) ==> s.sent == |s.payloads|)
    && (s.client.FinReceiving? ==> |s.client.got| <= s.len)
    && (s.server.FinSending? || s.server.WaitClose? || s.server == Ended(0) ==> |s.received| == |s.payloads|)
  }

  /** What the server has of its current message, followed by what is in the channel, is exactly what the
      client has put out since the last message the server finalised. */
  ghost predicate Forward(s: State) {
    && |s.received| <= |s.payloads| && s.received == s.payloads[..|s.received|]
    && (!s.server.Ended? ==>
          && (|s.received| <= s.sent || (|s.received| == s.sent + 1 && s.off == s.len))
          && Got(s) + s.toServer == Between(s.payloads, |s.received|, s.sent, s.off))
  }

  /** No byte of the FIN exists before the server has finalised every payload. */
  ghost predicate Backward(s: State) {
    && (s.finOff > 0 ==> |s.received| == |s.payloads|)
    && (!s.client.Returned? ==>
          s.finReceived == [] && s.finOff <= |s.fin| && FinGot(s) + s.toClient == s.fin[..s.finOff])
    && (s.client == Returned(0) ==> |s.received| == |s.payloads| && s.finReceived == [s.fin])
  }

  ghost predicate Inv(s: State) {
    Configured(s) && s.len > 0 && Positions(s) && Forward(s) && Backward(s)
  }

  lemma KeepsPositions(s: State, a: Action)
    requires Inv(s) && Enabled(s, a)
    ensures Configured(Next(s, a)) && Positions(Next(s, a))
  {
    hide Between, Forward, Backward;
  }

  lemma {:induction false} BetweenGrows(payloads: seq<Bytes>, i: nat, j: nat, off: nat, k: nat)
    requires i <= j < |payloads| && off + k <= |payloads[j]|
    ensures Between(payloads, i, j, off) + payloads[j][off..off + k] == Between(payloads, i, j, off + k)
    decreases j - i
  {
    if i < j {
      BetweenGrows(payloads, i + 1, j, off, k);
      assert Between(payloads, i, j, off) + payloads[j][off..off + k]
          == payloads[i] + (Between(payloads, i + 1, j, off) + payloads[j][off..off + k]);
    }
  }

  lemma {:induction false} BetweenNext(payloads: seq<Bytes>, i: nat, j: nat)
    requires j < |payloads| && i <= j + 1
    ensures Between(payloads, i, j, |payloads[j]|) == Between(payloads, i, j + 1, 0)
    decreases j - i
  {
    if i < j {
      BetweenNext(payloads, i + 1, j);
    }
  }

  lemma PushForward(s: State, k: nat)
    requires Inv(s) && Enabled(s, ClientPush(k))
    ensures Forward(Next(s, ClientPush(k)))
  {
    hide Between;
    var piece := s.payloads[s.sent][s.off..s.off + k];
    assert Got(s) + (s.toServer + piece) == (Got(s) + s.toServer) + piece;
    if k == 0 {
      assert s.toServer + piece == s.toServer;
    } else if |s.received| <= s.sent {
      BetweenGrows(s.payloads, |s.received|, s.sent, s.off, k);
    }
  }

  lemma SendDoneForward(s: State)
    requires Inv(s) && Enabled(s, ClientSendDone)
    ensures Forward(Next(s, ClientSendDone))
  {
    if |s.received| <= s.sent + 1 {
      BetweenNext(s.payloads, |s.received|, s.sent);
    }
  }

  lemma PullForward(s: State, k: nat)
    requires Inv(s) && Enabled(s, ServerPull(k))
    ensures Forward(Next(s, ServerPull(k)))
  {
    assert (s.server.got + s.toServer[..k]) + s.toServer[k..] == s.server.got + s.toServer;
  }

  /** A full receive buffer is the next payload. */
  lemma ReceivesPayload(s: State)
    requires Inv(s) && Enabled(s, ServerReceiveDone)
    ensures s.server.got == s.payloads[|s.received|]
    ensures s.toServer == Between(s.payloads, |s.received| + 1, s.sent, s.off)
    ensures |s.received| < s.sent || (|s.received| == s.sent && s.off == s.len)
  {
    var i := |s.received|;
    var all := s.server.got + s.toServer;
    assert all[..s.len] == s.server.got && all[s.len..] == s.toServer;
    assert all == Between(s.payloads, i, s.sent, s.off);
    if i < s.sent {
      assert all == s.payloads[i] + Between(s.payloads, i + 1, s.sent, s.off);
    } else if i == s.sent {
      assert all == s.payloads[i][..s.off];
      assert |all| == s.off;
      assert s.payloads[i][..s.len] == s.payloads[i];
    }
  }

  lemma KeepsForward(s: State, a: Action)
    requires Inv(s) && Enabled(s, a)
    ensures Forward(Next(s, a))
  {
    match a
    case ClientPush(k) => PushForward(s, k);
    case ClientSendDone => SendDoneForward(s);
    case ServerPull(k) => PullForward(s, k);
    case ServerReceiveDone => ReceivesPayload(s);
    case _ =>
  }

  /** A full FIN buffer is the FIN, and then the server has finalised every payload. */
  lemma ReceivesFin(s: State)
    requires Inv(s) && Enabled(s, ClientFinDone)
    ensures s.client.got == s.fin && |s.received| == |s.payloads|
  {
    var all := s.client.got + s.toClient;
    assert all == s.fin[..s.finOff] && |all| == s.finOff;
    assert s.fin[..s.len] == s.fin;
  }

  lemma PullBackward(s: State, k: nat)
    requires Inv(s) && Enabled(s, ClientFinPull(k))
    ensures Backward(Next(s, ClientFinPull(k)))
  {
    assert (s.client.got + s.toClient[..k]) + s.toClient[k..] == s.client.got + s.toClient;
  }

  lemma PushBackward(s: State, k: nat)
    requires Inv(s) && Enabled(s, ServerFinPush(k))
    ensures Backward(Next(s, ServerFinPush(k)))
  {
    hide Between;
    var piece := s.fin[s.finOff..s.finOff + k];
    assert FinGot(s) + (s.toClient + piece) == (FinGot(s) + s.toClient) + piece;
  }

  lemma KeepsBackward(s: State, a: Action)
    requires Inv(s) && Enabled(s, a)
    ensures Backward(Next(s, a))
  {
    match a
    case ClientFinPull(k) => PullBackward(s, k);
    case ClientFinDone => ReceivesFin(s);
    case ServerFinPush(k) => PushBackward(s, k);
    case _ =>
  }

  ghost predicate IsStep(s: State, a: Action, t: State) {
    Enabled(s, a) && t == Next(s, a)
  }

  lemma InvNext(s: State, a: Action, t: State)
    requires Inv(s) && IsStep(s, a, t)
    ensures Inv(t) && t.len == s.len && t.payloads == s.payloads && t.fin == s.fin
  {
    KeepsPositions(s, a);
    KeepsForward(s, a);
    KeepsBackward(s, a);
  }

  // ---------------------------------------------------------------- runs

  ghost predicate IsRun(states: seq<State>, actions: seq<Action>) {
    && |states| == |actions| + 1 && Init(states[0])
    && forall i | 0 <= i < |actions| :: IsStep(states[i], actions[i], states[i + 1])
  }

  lemma {:induction false} Reachable(states: seq<State>, actions: seq<Action>, i: nat)
    requires IsRun(states, actions) && i < |states| && states[0].len > 0
    ensures Inv(states[i]) && states[i].payloads == states[0].payloads
  {
    if i > 0 {
      Reachable(states, actions, i - 1);
      InvNext(states[i - 1], actions[i - 1], states[i]);
    }
  }

  /** The acknowledgement is honest: when the client returns 0, the server has already finalised all n
      payloads, in order and byte for byte, and the client holds the FIN. Messages are not empty. */
  lemma SuccessMeansDelivered(states: seq<State>, actions: seq<Action>, i: nat)
    requires IsRun(states, actions) && i < |states| && states[0].len > 0
    requires states[i].client == Returned(0)
    ensures states[i].received == states[0].payloads && states[i].finReceived == [states[i].fin]
  {
    Reachable(states, actions, i);
  }

  /** At any time, with failures on either side, what the server has finalised is a prefix of what the
      client meant to send. */
  lemma ReceivedIsPrefix(states: seq<State>, actions: seq<Action>, i: nat)
    requires IsRun(states, actions) && i < |states| && states[0].len > 0
    ensures states[i].received <= states[0].payloads
  {
    Reachable(states, actions, i);
  }

  // ---------------------------------------------------------------- empty messages

  /** Every state of the run in which the client has returned 0 has all payloads at the server. */
  ghost predicate Honest(states: seq<State>) {
    forall i | 0 <= i < |states| && states[i].client == Returned(0) ::
      |states[i].received| == |states[i].payloads|
  }

  lemma Extend(states: seq<State>, actions: seq<Action>, a: Action) returns (states': seq<State>, actions': seq<Action>)
    requires IsRun(states, actions) && Enabled(states[|states| - 1], a)
    ensures IsRun(states', actions') && states'[0] == states[0]
    ensures |states'| == |states| + 1 && states'[|states|] == Next(states[|states| - 1], a)
  {
    states' := states + [Next(states[|states| - 1], a)];
    actions' := actions + [a];
    forall i | 0 <= i < |actions'| ensures IsStep(states'[i], actions'[i], states'[i + 1]) {
      if i < |actions| {
        assert IsStep(states[i], actions[i], states[i + 1]);
      }
    }
  }

  /** A client alone can send k empty messages. */
  lemma {:induction false} SendEmpty(s: State, k: nat) returns (states: seq<State>, actions: seq<Action>)
    requires Init(s) && s.len == 0 && k <= |s.payloads|
    ensures IsRun(states, actions) && states[0] == s
    ensures states[|states| - 1] == s.(sent := k)
  {
    if k == 0 {
      states, actions := [s], [];
    } else {
      states, actions := SendEmpty(s, k - 1);
      states, actions := Extend(states, actions, ClientPost);
      states, actions := Extend(states, actions, ClientSendDone);
    }
  }

  /** With empty messages the FIN proves nothing: the client can return 0 before the server did anything. */
  lemma EmptyFinProvesNothing(s: State) returns (states: seq<State>, actions: seq<Action>)
    requires Init(s) && s.len == 0 && |s.payloads| > 0
    ensures IsRun(states, actions) && states[0] == s && !Honest(states)
  {
    states, actions := SendEmpty(s, |s.payloads|);
    states, actions := Extend(states, actions, ClientFinPost);
    states, actions := Extend(states, actions, ClientFinDone);
    assert states[|states| - 1].client == Returned(0) && states[|states| - 1].received == [];
  }

  lemma {:induction false} NothingToReceive(states: seq<State>, actions: seq<Action>, i: nat)
    requires IsRun(states, actions) && i < |states| && states[0].payloads == []
    ensures states[i].payloads == [] && states[i].received == [] && !states[i].server.Receiving?
  {
    if i > 0 {
      NothingToReceive(states, actions, i - 1);
      assert IsStep(states[i - 1], actions[i - 1], states[i]);
    }
  }

  /** The acknowledgement is honest on every run exactly when messages are not empty or there are none. */
  lemma HonestIffNotEmpty(s: State)
    requires Init(s)
    ensures (forall states: seq<State>, actions: seq<Action> ::
               IsRun(states, actions) && states[0] == s ==> Honest(states))
       <==> s.len > 0 || s.payloads == []
  {
    if s.len > 0 || s.payloads == [] {
      forall states: seq<State>, actions: seq<Action> | IsRun(states, actions) && states[0] == s
        ensures Honest(states)
      {
        forall i | 0 <= i < |states| && states[i].client == Returned(0)
          ensures |states[i].received| == |states[i].payloads|
        {
          if s.len > 0 {
            Reachable(states, actions, i);
          } else {
            NothingToReceive(states, actions, i);
          }
        }
      }
    } else {
      var states, actions := EmptyFinProvesNothing(s);
    }
  }
}
