/** The active-message exchange as a state machine over the server process, the client process and the
    network, for unboundedly many client sessions.

    One action is one step of the C code between two points where another process, or the network, can
    act. Messages are identified by session and index, so "the buffer holds message k" is an equality.
    `recvBuf` and in-flight operations name the activation of `send_recv_am` whose iov, buffers and
    `ctx` they refer to; `frame` is the activation that is live. A callback that touches memory of an
    activation that has returned sets `stray`. */
module AmSession {
  import opened Common

  datatype Proto = Eager | Rendezvous

  datatype Content = Garbage | Msg(session: nat, k: nat)

  datatype ServerPc =
    | Boundary    // no client
    | IterStart   // about to call send_recv_am: iteration i, or the FIN when i == n
    | WaitMsg     // while (last == am_data_desc.complete)
    | Receiving   // request_wait on the rendezvous receive
    | Finalize    // print, free
    | FinSending  // request_wait on the FIN
    | WaitClose   // while (!connection_closed)
    | Closing     // ep_close

  datatype ClientPc = Absent | Ready | Sending | FinWait | FinReceiving | Done

  datatype Server = Server(
    pc: ServerPc, i: nat, last: nat, complete: nat, isRndv: bool, desc: Option<Content>,
    recvBuf: Option<nat>, frame: Option<nat>, nextFrame: nat, buffer: Content, ctxComplete: bool,
    receive: Option<(nat, Content)>, finSend: Option<nat>,
    progress: bool, deliveredNow: nat, connectionClosed: bool,
    finals: seq<Content>, confirmed: seq<Content>, stray: bool)

  datatype Client = Client(pc: ClientPc, i: nat, last: nat, complete: nat, ctxComplete: bool)

  /** `sent`: messages posted by the client; `delivered`: AM callbacks run at the server. */
  datatype Net = Net(session: nat, proto: Proto, sent: nat, delivered: nat,
                     finSent: bool, finDelivered: bool, finConfirmed: bool)

  /** n iterations on both sides. `base` is the value of `last` when the session began (history only). */
  datatype State = State(n: nat, server: Server, client: Client, net: Net, base: nat)

  datatype Action =
    | NewSession(proto: Proto)
    | StartIteration
    | ProgressBegin
    | DeliverMessage
    | ReceiveDone
    | FinSendDone
    | CloseNotice
    | ProgressEnd
    | LeaveWait(firedInCall: bool)
    | LeaveReceive
    | Finalise
    | StartFin(immediate: bool)
    | LeaveFin
    | LeaveWaitClose
    | CloseDone
    | ClientPost
    | ClientSendDone
    | ClientRegister
    | DropFin
    | DeliverFin
    | ClientTakeFin
    | ClientFinReceived

  ghost predicate Enabled(s: State, a: Action) {
    var v, c, m := s.server, s.client, s.net;
    match a
    case NewSession(_) => v.pc.Boundary?
    case StartIteration => v.pc.IterStart? && v.i < s.n
    case ProgressBegin =>
      && !v.progress
      && (match v.pc
          case WaitMsg => v.last == v.complete
          case Receiving => !v.ctxComplete
          case FinSending => !v.ctxComplete
          case WaitClose => !v.connectionClosed
          case Closing => true
          case _ => false)
    case DeliverMessage => v.progress && m.delivered < m.sent
    case ReceiveDone => v.progress && v.receive.Some?
    case FinSendDone => v.progress && v.finSend.Some? && (m.proto.Rendezvous? ==> m.finConfirmed)
    case CloseNotice => v.progress && c.pc.Done?
    case ProgressEnd => v.progress
    case LeaveWait(_) => v.pc.WaitMsg? && !v.progress && v.last != v.complete
    case LeaveReceive => v.pc.Receiving? && !v.progress && v.ctxComplete
    case Finalise => v.pc.Finalize?
    case StartFin(immediate) => v.pc.IterStart? && !(v.i < s.n) && (immediate ==> m.proto.Eager?)
    case LeaveFin => v.pc.FinSending? && !v.progress && v.ctxComplete
    case LeaveWaitClose => v.pc.WaitClose? && !v.progress && v.connectionClosed
    case CloseDone => v.pc.Closing? && !v.progress
    case ClientPost => c.pc.Ready? && c.i < s.n
    // a rendezvous send completes only after the receiver has confirmed that message
    case ClientSendDone => c.pc.Sending? && (m.proto.Rendezvous? ==> Msg(m.session, c.i) in v.confirmed)
    case ClientRegister => c.pc.Ready? && !(c.i < s.n)
    case DropFin => c.pc.Sending? && m.finSent && !m.finDelivered
    case DeliverFin => c.pc.FinWait? && m.finSent && !m.finDelivered && c.last == c.complete
    case ClientTakeFin => c.pc.FinWait? && c.last != c.complete
    case ClientFinReceived => c.pc.FinReceiving?
  }

  /** The AM data callback: counts the message, then keeps the descriptor or copies the data. */
  function OnMessage(v: Server, m: Net): Server {
    var msg := Msg(m.session, m.delivered);
    var stray := v.stray || v.frame.None? || v.recvBuf != v.frame;
    if m.proto.Rendezvous? then
      v.(complete := v.complete + 1, isRndv := true, desc := Some(msg), stray := stray,
         deliveredNow := v.deliveredNow + 1)
    else
      v.(complete := v.complete + 1, isRndv := false, buffer := msg, stray := stray,
         deliveredNow := v.deliveredNow + 1)
  }

  /** The wait loop is left: `last` is advanced and a rendezvous is confirmed with the stored descriptor. */
  function OnLeaveWait(v: Server, fired: bool): Server
    requires v.frame.Some?
  {
    var v1 := v.(last := v.last + 1);
    if !v.isRndv then v1.(pc := Finalize)
    else
      var d := if v.desc.Some? then v.desc.value else Garbage;
      var v2 := v1.(pc := Receiving, confirmed := v.confirmed + [d]);
      if fired then v2.(ctxComplete := true, buffer := d) else v2.(receive := Some((v.frame.value, d)))
  }

  ghost function Next(s: State, a: Action): State
    requires Enabled(s, a)
    requires a.LeaveWait? ==> s.server.frame.Some?
  {
    var v, c, m := s.server, s.client, s.net;
    match a
    case NewSession(proto) =>
      s.(base := v.last,
         server := v.(pc := IterStart, i := 0, connectionClosed := false, finals := [], confirmed := []),
         client := Client(Ready, 0, 0, 0, false),
         net := Net(m.session + 1, proto, 0, 0, false, false, false))
    case StartIteration =>
      s.(server := v.(pc := WaitMsg, frame := Some(v.nextFrame), recvBuf := Some(v.nextFrame),
                      nextFrame := v.nextFrame + 1, buffer := Garbage, ctxComplete := false))
    case ProgressBegin => s.(server := v.(progress := true, deliveredNow := 0))
    case DeliverMessage => s.(server := OnMessage(v, m), net := m.(delivered := m.delivered + 1))
    case ReceiveDone =>
      s.(server := v.(buffer := v.receive.value.1, ctxComplete := true, receive := None,
                      stray := v.stray || v.frame != Some(v.receive.value.0)))
    case FinSendDone =>
      s.(server := v.(ctxComplete := true, finSend := None,
                      stray := v.stray || v.frame != Some(v.finSend.value)))
    case CloseNotice => s.(server := v.(connectionClosed := true))
    case ProgressEnd => s.(server := v.(progress := false))
    case LeaveWait(fired) => s.(server := OnLeaveWait(v, fired))
    case LeaveReceive => s.(server := v.(pc := Finalize))
    case Finalise =>
      s.(server := v.(pc := IterStart, i := v.i + 1, frame := None, finals := v.finals + [v.buffer]))
    case StartFin(immediate) =>
      s.(net := m.(finSent := true),
         server := if immediate then v.(pc := WaitClose, nextFrame := v.nextFrame + 1)
                   else v.(pc := FinSending, frame := Some(v.nextFrame), nextFrame := v.nextFrame + 1,
                           ctxComplete := false, finSend := Some(v.nextFrame)))
    case LeaveFin => s.(server := v.(pc := WaitClose, frame := None))
    case LeaveWaitClose => s.(server := v.(pc := Closing))
    case CloseDone => s.(server := v.(pc := Boundary), client := c.(pc := Absent))
    case ClientPost => s.(client := c.(pc := Sending), net := m.(sent := m.sent + 1))
    case ClientSendDone => s.(client := c.(pc := Ready, i := c.i + 1))
    case ClientRegister => s.(client := c.(pc := FinWait))
    case DropFin => s.(net := m.(finDelivered := true))
    case DeliverFin => s.(net := m.(finDelivered := true), client := c.(complete := c.complete + 1))
    case ClientTakeFin =>
      s.(client := c.(last := c.last + 1, pc := if m.proto.Rendezvous? then FinReceiving else Done),
         net := m.(finConfirmed := true))
    case ClientFinReceived => s.(client := c.(pc := Done))
  }

  ghost predicate Init(s: State) {
    && s.server == Server(Boundary, 0, 0, 0, false, None, None, None, 0, Garbage, false,
                          None, None, false, 0, true, [], [], false)
    && s.client == Client(Absent, 0, 0, 0, false)
    && s.net == Net(0, Eager, 0, 0, false, false, false)
    && s.base == 0
  }

  // ---------------------------------------------------------------- the joint invariant

  /** The first `k` messages of a session, in order. */
  function Messages(session: nat, k: nat): (r: seq<Content>)
    ensures |r| == k && forall j | 0 <= j < k :: r[j] == Msg(session, j)
  {
    seq(k, j requires 0 <= j => Msg(session, j))
  }

  /** Messages the wait loop has consumed in this session. */
  function Taken(s: State): int { s.server.last - s.base }

  ghost predicate CountersOk(s: State) {
    var v, m := s.server, s.net;
    && v.complete == s.base + m.delivered
    && 0 <= Taken(s) <= m.delivered <= m.sent <= s.n
    && (m.proto.Rendezvous? ==> m.sent <= Taken(s) + 1)
  }

  /** Where the server is, and which activation is live there. */
  ghost predicate ServerPlace(s: State) {
    var v := s.server;
    && v.i <= s.n
    && Taken(s) == (if v.pc.Receiving? || v.pc.Finalize? then v.i + 1 else v.i)
    && (v.pc.WaitMsg? || v.pc.Receiving? || v.pc.Finalize? ==>
          v.i < s.n && v.frame.Some? && v.recvBuf == v.frame)
    && (v.pc.FinSending? ==> v.frame.Some?)
    && (v.pc.IterStart? || v.pc.WaitClose? || v.pc.Closing? || v.pc.Boundary? ==> v.frame.None?)
    && (v.pc.FinSending? || v.pc.WaitClose? || v.pc.Closing? ==> v.i == s.n)
    && (v.pc.Boundary? ==> v.last == v.complete)
    && (v.progress ==> v.pc.WaitMsg? || v.pc.Receiving? || v.pc.FinSending? || v.pc.WaitClose? || v.pc.Closing?)
  }

  /** What is in flight at the server refers to the live activation. */
  ghost predicate ServerOps(s: State) {
    var v, m := s.server, s.net;
    && !v.stray
    && (v.pc.WaitMsg? ==> !v.ctxComplete)
    && (v.receive.Some? ==> v.pc.Receiving? && !v.ctxComplete && v.frame.Some?
                            && v.receive == Some((v.frame.value, Msg(m.session, v.i))))
    && (v.finSend.Some? ==> v.pc.FinSending? && !v.ctxComplete && v.finSend == v.frame)
    && (v.pc.Receiving? && v.ctxComplete ==> v.buffer == Msg(m.session, v.i))
    && (v.pc.Receiving? ==> m.proto.Rendezvous?)
    && (m.delivered > Taken(s) ==> v.isRndv == m.proto.Rendezvous?)
  }

  /** How many AM callbacks the current progress call has run, where it matters. */
  ghost predicate BatchOk(s: State) {
    var v, m := s.server, s.net;
    && (v.pc.WaitMsg? && v.progress ==> m.delivered == Taken(s) + v.deliveredNow)
    && ((v.pc.FinSending? || v.pc.WaitClose? || v.pc.Closing?) && v.progress ==> v.deliveredNow == 0)
    && (v.connectionClosed ==> v.deliveredNow == 0)
    && (v.pc.Boundary? ==> v.connectionClosed)
  }

  /** Rendezvous: the descriptor of the one message counted but not consumed is the stored one. */
  ghost predicate RendezvousOk(s: State)
    requires CountersOk(s)
  {
    var v, m := s.server, s.net;
    m.proto.Rendezvous? ==>
      && (m.delivered > Taken(s) ==> v.desc == Some(Msg(m.session, m.delivered - 1)))
      && v.confirmed == Messages(m.session, Taken(s))
      && (v.pc.Finalize? ==> v.buffer == Msg(m.session, v.i))
  }

  ghost predicate ClientOk(s: State) {
    var v, c, m := s.server, s.client, s.net;
    && (v.pc.Boundary? <==> c.pc.Absent?)
    && (!c.pc.Absent? ==> m.sent == if c.pc.Sending? then c.i + 1 else c.i)
    && (c.pc.FinWait? || c.pc.FinReceiving? || c.pc.Done? ==> c.i == s.n)
    && (!c.pc.Absent? && m.proto.Rendezvous? ==> c.i <= Taken(s))
    && (m.finSent && !v.pc.Boundary? ==> v.pc.FinSending? || v.pc.WaitClose? || v.pc.Closing?)
    && (m.finDelivered ==> m.finSent)
    && (c.last < c.complete || c.pc.FinReceiving? || c.pc.Done? ==> m.finDelivered)
    && c.last <= c.complete && (c.pc.Ready? || c.pc.Sending? ==> c.last == c.complete)
    && (v.connectionClosed && !v.pc.Boundary? ==> c.pc.Done?)
    && (v.pc.Closing? ==> v.connectionClosed)
  }

  ghost predicate Inv(s: State) {
    && CountersOk(s) && ServerPlace(s) && ServerOps(s) && BatchOk(s) && RendezvousOk(s) && ClientOk(s)
    && (s.net.proto.Rendezvous? ==> s.server.finals == Messages(s.net.session, s.server.i))
  }

  lemma InvInit(s: State)
    requires Init(s)
    ensures Inv(s)
  {
  }

  // ---------------------------------------------------------------- every step keeps it

  /** Actions inside a progress call of the server. */
  predicate InProgress(a: Action) {
    a.ProgressBegin? || a.DeliverMessage? || a.ReceiveDone? || a.FinSendDone? || a.CloseNotice? || a.ProgressEnd?
  }

  /** Actions of the server outside progress, within a session. */
  predicate InFlow(a: Action) {
    || a.StartIteration? || a.LeaveWait? || a.LeaveReceive? || a.Finalise? || a.StartFin? || a.LeaveFin?
    || a.LeaveWaitClose? || a.CloseDone?
  }

  lemma CountersProgress(s: State, a: Action)
    requires Inv(s) && Enabled(s, a) && InProgress(a)
    ensures CountersOk(Next(s, a))
  {
  }

  lemma CountersFlow(s: State, a: Action)
    requires Inv(s) && Enabled(s, a) && InFlow(a)
    ensures CountersOk(Next(s, a))
  {
  }

  lemma CountersRest(s: State, a: Action)
    requires Inv(s) && Enabled(s, a) && !InProgress(a) && !InFlow(a)
    ensures CountersOk(Next(s, a))
  {
  }

  lemma KeepsCounters(s: State, a: Action)
    requires Inv(s) && Enabled(s, a)
    ensures CountersOk(Next(s, a))
  {
    if InProgress(a) {
      CountersProgress(s, a);
    } else if InFlow(a) {
      CountersFlow(s, a);
    } else {
      CountersRest(s, a);
    }
  }

  lemma PlaceProgress(s: State, a: Action)
    requires Inv(s) && Enabled(s, a) && InProgress(a)
    ensures ServerPlace(Next(s, a))
  {
  }

  lemma PlaceFlow(s: State, a: Action)
    requires Inv(s) && Enabled(s, a) && InFlow(a)
    ensures ServerPlace(Next(s, a))
  {
  }

  lemma PlaceRest(s: State, a: Action)
    requires Inv(s) && Enabled(s, a) && !InProgress(a) && !InFlow(a)
    ensures ServerPlace(Next(s, a))
  {
  }

  lemma KeepsPlace(s: State, a: Action)
    requires Inv(s) && Enabled(s, a)
    ensures ServerPlace(Next(s, a))
  {
    if InProgress(a) {
      PlaceProgress(s, a);
    } else if InFlow(a) {
      PlaceFlow(s, a);
    } else {
      PlaceRest(s, a);
    }
  }

  lemma OpsProgress(s: State, a: Action)
    requires Inv(s) && Enabled(s, a) && InProgress(a)
    ensures ServerOps(Next(s, a))
  {
  }

  lemma OpsFlow(s: State, a: Action)
    requires Inv(s) && Enabled(s, a) && InFlow(a)
    ensures ServerOps(Next(s, a))
  {
  }

  lemma OpsRest(s: State, a: Action)
    requires Inv(s) && Enabled(s, a) && !InProgress(a) && !InFlow(a)
    ensures ServerOps(Next(s, a))
  {
  }

  lemma KeepsOps(s: State, a: Action)
    requires Inv(s) && Enabled(s, a)
    ensures ServerOps(Next(s, a))
  {
    if InProgress(a) {
      OpsProgress(s, a);
    } else if InFlow(a) {
      OpsFlow(s, a);
    } else {
      OpsRest(s, a);
    }
  }

  lemma BatchProgress(s: State, a: Action)
    requires Inv(s) && Enabled(s, a) && InProgress(a)
    ensures BatchOk(Next(s, a))
  {
  }

  lemma BatchFlow(s: State, a: Action)
    requires Inv(s) && Enabled(s, a) && InFlow(a)
    ensures BatchOk(Next(s, a))
  {
  }

  lemma BatchRest(s: State, a: Action)
    requires Inv(s) && Enabled(s, a) && !InProgress(a) && !InFlow(a)
    ensures BatchOk(Next(s, a))
  {
  }

  lemma KeepsBatch(s: State, a: Action)
    requires Inv(s) && Enabled(s, a)
    ensures BatchOk(Next(s, a))
  {
    if InProgress(a) {
      BatchProgress(s, a);
    } else if InFlow(a) {
      BatchFlow(s, a);
    } else {
      BatchRest(s, a);
    }
  }

  lemma ClientProgress(s: State, a: Action)
    requires Inv(s) && Enabled(s, a) && InProgress(a)
    ensures ClientOk(Next(s, a))
  {
  }

  lemma ClientFlow(s: State, a: Action)
    requires Inv(s) && Enabled(s, a) && InFlow(a)
    ensures ClientOk(Next(s, a))
  {
  }

  lemma ClientRest(s: State, a: Action)
    requires Inv(s) && Enabled(s, a) && !InProgress(a) && !InFlow(a)
    ensures ClientOk(Next(s, a))
  {
  }

  lemma KeepsClient(s: State, a: Action)
    requires Inv(s) && Enabled(s, a)
    ensures ClientOk(Next(s, a))
  {
    if InProgress(a) {
      ClientProgress(s, a);
    } else if InFlow(a) {
      ClientFlow(s, a);
    } else {
      ClientRest(s, a);
    }
  }

  lemma RendezvousProgress(s: State, a: Action)
    requires Inv(s) && Enabled(s, a) && CountersOk(Next(s, a)) && InProgress(a)
    ensures RendezvousOk(Next(s, a))
  {
  }

  lemma RendezvousFlow(s: State, a: Action)
    requires Inv(s) && Enabled(s, a) && CountersOk(Next(s, a)) && InFlow(a)
    ensures RendezvousOk(Next(s, a))
  {
  }

  lemma RendezvousRest(s: State, a: Action)
    requires Inv(s) && Enabled(s, a) && CountersOk(Next(s, a)) && !InProgress(a) && !InFlow(a)
    ensures RendezvousOk(Next(s, a))
  {
  }

  lemma KeepsRendezvous(s: State, a: Action)
    requires Inv(s) && Enabled(s, a)
    ensures CountersOk(Next(s, a)) && RendezvousOk(Next(s, a))
  {
    KeepsCounters(s, a);
    if InProgress(a) {
      RendezvousProgress(s, a);
    } else if InFlow(a) {
      RendezvousFlow(s, a);
    } else {
      RendezvousRest(s, a);
    }
  }

  lemma KeepsFinals(s: State, a: Action)
    requires Inv(s) && Enabled(s, a)
    ensures var r := Next(s, a);
            r.net.proto.Rendezvous? ==> r.server.finals == Messages(r.net.session, r.server.i)
  {
  }

  ghost predicate IsStep(s: State, a: Action, t: State) {
    Enabled(s, a) && (a.LeaveWait? ==> s.server.frame.Some?) && t == Next(s, a)
  }

  lemma InvNext(s: State, a: Action, t: State)
    requires Inv(s) && IsStep(s, a, t)
    ensures Inv(t) && t.n == s.n
  {
    KeepsRendezvous(s, a);
    KeepsPlace(s, a);
    KeepsOps(s, a);
    KeepsBatch(s, a);
    KeepsClient(s, a);
    KeepsFinals(s, a);
  }

  // ---------------------------------------------------------------- runs

  /** A run of the whole system, over any number of sessions. */
  ghost predicate IsRun(states: seq<State>, actions: seq<Action>) {
    && |states| == |actions| + 1 && Init(states[0])
    && forall i | 0 <= i < |actions| :: IsStep(states[i], actions[i], states[i + 1])
  }

  lemma {:induction false} Reachable(states: seq<State>, actions: seq<Action>, i: nat)
    requires IsRun(states, actions) && i < |states|
    ensures Inv(states[i]) && states[i].n == states[0].n
  {
    if i > 0 {
      Reachable(states, actions, i - 1);
      InvNext(states[i - 1], actions[i - 1], states[i]);
    } else {
      InvInit(states[0]);
    }
  }

  /** Flow control of the rendezvous: never more than one message is counted ahead of the loop, and the
      descriptors passed to the receive are those of messages 0, 1, 2, ... of the session, each once. */
  lemma RendezvousFlowControl(states: seq<State>, actions: seq<Action>, i: nat)
    requires IsRun(states, actions) && i < |states| && states[i].net.proto.Rendezvous?
    ensures var v := states[i].server; 0 <= v.complete - v.last <= 1
    ensures var s := states[i]; s.base <= s.server.last
    ensures var s := states[i]; s.server.confirmed == Messages(s.net.session, s.server.last - s.base)
    ensures var v := states[i].server;
            v.pc.Receiving? || v.pc.Finalize? ==> v.confirmed == Messages(states[i].net.session, v.i + 1)
  {
    Reachable(states, actions, i);
  }

  /** Whatever the batching and the protocol, the loop never runs ahead of the callbacks. */
  lemma LastNeverAhead(states: seq<State>, actions: seq<Action>, i: nat)
    requires IsRun(states, actions) && i < |states|
    ensures states[i].server.last <= states[i].server.complete
  {
    Reachable(states, actions, i);
  }

  /** At every session boundary the process-wide counters agree, so the first wait of the next session
      is left only after a message of that session was counted. */
  lemma CountersAgreeBetweenSessions(states: seq<State>, actions: seq<Action>, i: nat)
    requires IsRun(states, actions) && i < |states|
    ensures var v := states[i].server; v.pc.Boundary? ==> v.last == v.complete
    ensures var s := states[i];
            (s.server.pc.WaitMsg? && s.server.last != s.server.complete
             ==> s.server.i < s.net.delivered <= s.net.sent)
  {
    Reachable(states, actions, i);
  }

  /** Every AM callback finds `recv_buf` pointing at the iov of the live activation, and no callback
      refers to an activation that has returned, although `recv_buf` dangles between activations. */
  lemma CallbacksFindLiveBuffers(states: seq<State>, actions: seq<Action>, i: nat)
    requires IsRun(states, actions) && i < |states|
    ensures var s := states[i]; !s.server.stray
    ensures var s := states[i];
            (Enabled(s, DeliverMessage)
             ==> s.server.frame.Some? && s.server.recvBuf == s.server.frame && s.server.i < s.n)
    ensures var s := states[i]; Enabled(s, ReceiveDone) ==> s.server.frame == Some(s.server.receive.value.0)
    ensures var s := states[i]; Enabled(s, FinSendDone) ==> s.server.frame == s.server.finSend
  {
    Reachable(states, actions, i);
  }

  /** When the client's work ends with success, the server has finished all n iterations of it, and under
      rendezvous each with its own message. */
  lemma ClientDoneMeansAllReceived(states: seq<State>, actions: seq<Action>, i: nat)
    requires IsRun(states, actions) && i < |states| && states[i].client.pc.Done?
    ensures var s := states[i]; s.server.i == s.n && s.net.delivered == s.n && s.server.last == s.server.complete
    ensures var s := states[i]; s.net.proto.Rendezvous? ==> s.server.finals == Messages(s.net.session, s.n)
  {
    Reachable(states, actions, i);
  }
}
