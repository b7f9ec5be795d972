/** The out-of-band socket of the hello-world program: the address exchange, the communication over UCX,
    and the shutdown barrier, which share one byte stream in each direction. */
module Barrier {
  import opened Common

  // ---------------------------------------------------------------- the length on the wire

  /** An unsigned integer as `width` bytes, least significant first. */
  function Encode(n: nat, width: nat): (r: Bytes)
    ensures |r| == width
    decreases width
  {
    if width == 0 then [] else [(n % 256) as Byte] + Encode(n / 256, width - 1)
  }

  function Decode(bytes: Bytes): nat {
    if bytes == [] then 0 else bytes[0] as int + 256 * Decode(bytes[1..])
  }

  function Pow256(width: nat): nat {
    if width == 0 then 1 else 256 * Pow256(width - 1)
  }

  lemma {:induction false} DecodeEncode(n: nat, width: nat)
    requires n < Pow256(width)
    ensures Decode(Encode(n, width)) == n
    decreases width
  {
    if width > 0 {
      DecodeEncode(n / 256, width - 1);
      assert Encode(n, width)[1..] == Encode(n / 256, width - 1);
    }
  }

  const LENGTH_BYTES: nat := 8
  const BARRIER_BYTES: nat := 4
  const MAX_INT: nat := 0x7FFF_FFFF   // results of send and recv are compared with (int)length
  const DUMMY: Bytes := [0, 0, 0, 0]

  // ---------------------------------------------------------------- the two processes

  /** Where a process is after the address exchange. `Exited(ret)` is the end of main, with the socket
      closed; `ret` is what main returns. */
  datatype Tail = Running | BarrierSend | BarrierPoll | BarrierReceive | Exited(ret: int)

  datatype ServerPc = SendLength | SendAddress | ServerTail(t: Tail)

  datatype ClientPc = ReceiveLength | ReceiveAddress(want: nat) | ClientTail(t: Tail)

  /** `ranOk`: run_ucx_* returned 0; `entered`: the process called barrier. `output` and `input` are all
      the bytes a process has written and read so far. `lengthField` is the server's local_addr_len as it
      lies in memory. */
  datatype Proc = Proc(ranOk: bool, entered: bool, barrierOk: bool, output: Bytes, input: Bytes)

  datatype State = State(address: Bytes, lengthField: Bytes, serverPc: ServerPc, clientPc: ClientPc,
                         server: Proc, client: Proc, peerAddress: Bytes, toClient: Bytes, toServer: Bytes)

  datatype Side = Server | Client

  datatype Action =
    | SendLen(k: int) | SendAddr(k: int)         // send returned k: so many bytes, or -1
    | RecvLen(k: int) | RecvAddr(k: int)         // recv returned k
    | MallocFails
    | RunEnds(side: Side, ret: int)
    | Enter(side: Side, k: int)                  // the send of the barrier returned k
    | PollReturns(side: Side)
    | RecvBarrier(side: Side, k: int)

  function TailOf(s: State, side: Side): Tail {
    match side
    case Server => if s.serverPc.ServerTail? then s.serverPc.t else Running
    case Client => if s.clientPc.ClientTail? then s.clientPc.t else Running
  }

  ghost predicate InTail(s: State, side: Side) {
    match side case Server => s.serverPc.ServerTail? case Client => s.clientPc.ClientTail?
  }

  function Incoming(s: State, side: Side): Bytes {
    match side case Server => s.toServer case Client => s.toClient
  }

  function ProcOf(s: State, side: Side): Proc {
    match side case Server => s.server case Client => s.client
  }

  function Peer(side: Side): Side {
    match side case Server => Client case Client => Server
  }

  function SetTail(s: State, side: Side, t: Tail): State {
    match side
    case Server => s.(serverPc := ServerTail(t))
    case Client => s.(clientPc := ClientTail(t))
  }

  function SetProc(s: State, side: Side, p: Proc): State {
    match side case Server => s.(server := p) case Client => s.(client := p)
  }

  ghost predicate Channels(s: State) {
    s.client.input + s.toClient == s.server.output && s.server.input + s.toServer == s.client.output
  }

  /** Writes bytes to the peer. */
  function Put(s: State, side: Side, bytes: Bytes): (r: State)
    ensures Channels(s) ==> Channels(r)
  {
    assert s.client.input + (s.toClient + bytes) == (s.client.input + s.toClient) + bytes;
    assert s.server.input + (s.toServer + bytes) == (s.server.input + s.toServer) + bytes;
    match side
    case Server => s.(server := s.server.(output := s.server.output + bytes), toClient := s.toClient + bytes)
    case Client => s.(client := s.client.(output := s.client.output + bytes), toServer := s.toServer + bytes)
  }

  /** Reads the next k bytes from the peer. */
  function Take(s: State, side: Side, k: nat): (r: State)
    requires k <= |Incoming(s, side)|
    ensures Channels(s) ==> Channels(r)
  {
    assert Incoming(s, side) == Incoming(s, side)[..k] + Incoming(s, side)[k..];
    assert ProcOf(s, side).input + Incoming(s, side)
        == (ProcOf(s, side).input + Incoming(s, side)[..k]) + Incoming(s, side)[k..];
    match side
    case Server => s.(server := s.server.(input := s.server.input + s.toServer[..k]), toServer := s.toServer[k..])
    case Client => s.(client := s.client.(input := s.client.input + s.toClient[..k]), toClient := s.toClient[k..])
  }

  function Count(k: int): nat {
    if k < 0 then 0 else k
  }

  ghost predicate Enabled(s: State, a: Action) {
    match a
    case SendLen(k) => s.serverPc.SendLength? && -1 <= k <= LENGTH_BYTES <= |s.lengthField|
    case SendAddr(k) => s.serverPc.SendAddress? && -1 <= k <= |s.address|
    case RecvLen(k) => s.clientPc.ReceiveLength? && -1 <= k <= LENGTH_BYTES && k <= |s.toClient|
    case RecvAddr(k) => s.clientPc.ReceiveAddress? && -1 <= k <= s.clientPc.want && k <= |s.toClient|
    case MallocFails => s.clientPc.ReceiveAddress?
    case RunEnds(side, _) => InTail(s, side) && TailOf(s, side).Running?
    case Enter(side, k) => InTail(s, side) && TailOf(s, side).BarrierSend? && -1 <= k <= BARRIER_BYTES
    // readable: bytes have arrived, or the peer has closed the socket
    case PollReturns(side) =>
      TailOf(s, side).BarrierPoll? && (Incoming(s, side) != [] || TailOf(s, Peer(side)).Exited?)
    case RecvBarrier(side, k) =>
      TailOf(s, side).BarrierReceive? && -1 <= k <= BARRIER_BYTES && k <= |Incoming(s, side)|
  }

  ghost function Next(s: State, a: Action): State
    requires Enabled(s, a)
  {
    match a
    case SendLen(k) =>
      var s1 := Put(s, Server, s.lengthField[..Count(k)]);
      s1.(serverPc := if k == LENGTH_BYTES then SendAddress else ServerTail(Exited(k)))
    case SendAddr(k) =>
      var s1 := Put(s, Server, s.address[..Count(k)]);
      s1.(serverPc := if k == |s.address| then ServerTail(Running) else ServerTail(Exited(k)))
    case RecvLen(k) =>
      var s1 := Take(s, Client, Count(k));
      s1.(clientPc := if k == LENGTH_BYTES then ReceiveAddress(Decode(s.toClient[..k])) else ClientTail(Exited(k)))
    case RecvAddr(k) =>
      var s1 := Take(s, Client, Count(k));
      s1.(peerAddress := s.toClient[..Count(k)],
          clientPc := if k == s.clientPc.want then ClientTail(Running) else ClientTail(Exited(k)))
    case MallocFails => s.(clientPc := ClientTail(Exited(LENGTH_BYTES)))
    case RunEnds(side, ret) =>
      var s1 := SetProc(s, side, ProcOf(s, side).(ranOk := ret == 0));
      SetTail(s1, side, if ret == 0 then BarrierSend else Exited(ret))
    case Enter(side, k) =>
      var s1 := SetProc(s, side, ProcOf(s, side).(entered := true));
      if k < 0 then SetTail(s1, side, Exited(k)) else SetTail(Put(s1, side, DUMMY[..k]), side, BarrierPoll)
    case PollReturns(side) => SetTail(s, side, BarrierReceive)
    case RecvBarrier(side, k) =>
      var s1 := Take(s, side, Count(k));
      var s2 := SetProc(s1, side, ProcOf(s1, side).(barrierOk := k == BARRIER_BYTES));
      SetTail(s2, side, Exited(if k == BARRIER_BYTES then 0 else 1))
  }

  ghost predicate Init(s: State) {
    && |s.address| <= MAX_INT && s.lengthField == Encode(|s.address|, LENGTH_BYTES)
    && s.serverPc.SendLength? && s.clientPc.ReceiveLength?
    && s.server == Proc(false, false, false, [], []) && s.client == Proc(false, false, false, [], [])
    && s.peerAddress == [] && s.toClient == [] && s.toServer == []
  }

  // ---------------------------------------------------------------- the joint invariant

  function Header(s: State): Bytes {
    s.lengthField + s.address
  }

  /** The server's output: the header up to where the server is, and after it only barrier bytes. */
  ghost predicate ServerOutput(s: State) {
    && |s.lengthField| == LENGTH_BYTES && Decode(s.lengthField) == |s.address|
    && (s.serverPc.SendLength? ==> s.server.output == [] && !s.server.entered)
    && (s.serverPc.SendAddress? ==> s.server.output == s.lengthField && !s.server.entered)
    && (s.serverPc.ServerTail? && !s.serverPc.t.Exited? ==> Header(s) <= s.server.output)
    && (if s.server.entered then Header(s) <= s.server.output && |s.server.output| <= |Header(s)| + BARRIER_BYTES
        else s.server.output <= Header(s))
  }

  /** The client writes nothing before its barrier. */
  ghost predicate ClientOutput(s: State) {
    && |s.client.output| <= BARRIER_BYTES && (!s.client.entered ==> s.client.output == [])
    && (!s.clientPc.ClientTail? ==> !s.client.entered)
  }

  /** What the client has read: the length, then exactly the address, and after that only barrier bytes. */
  ghost predicate ClientInput(s: State) {
    && (s.clientPc.ReceiveLength? ==> s.client.input == [])
    && (s.clientPc.ReceiveAddress? ==>
          s.client.input == s.lengthField && s.clientPc.want == |s.address|)
    && (s.clientPc.ClientTail? && !s.clientPc.t.Exited? ==>
          s.client.input == Header(s) && s.peerAddress == s.address)
    && (s.client.barrierOk ==> |s.client.input| == |Header(s)| + BARRIER_BYTES && s.peerAddress == s.address)
  }

  ghost predicate ServerInput(s: State) {
    && ((s.serverPc.ServerTail? ==> !s.serverPc.t.Exited?) ==> s.server.input == [])
    && (s.server.barrierOk ==> |s.server.input| == BARRIER_BYTES)
  }

  ghost predicate FlagsOf(s: State, side: Side) {
    var p, t := ProcOf(s, side), TailOf(s, side);
    && (p.entered ==> p.ranOk)
    && (t.BarrierSend? ==> p.ranOk) && (t.BarrierPoll? || t.BarrierReceive? ==> p.entered)
    && (p.barrierOk ==> t == Exited(0) && p.entered)
    && (t.Running? || t.BarrierSend? ==> !p.entered)
    && (t == Exited(0) && p.ranOk ==> p.barrierOk)
    && (p.ranOk ==> InTail(s, side) && !t.Running?)
  }

  ghost predicate Flags(s: State) {
    FlagsOf(s, Server) && FlagsOf(s, Client)
  }

  ghost predicate Inv(s: State) {
    ServerOutput(s) && ClientOutput(s) && Channels(s) && ClientInput(s) && ServerInput(s) && Flags(s)
  }

  lemma InvInit(s: State)
    requires Init(s)
    ensures Inv(s)
  {
    assert MAX_INT < 256 * 256 * 256 * 256 <= Pow256(4) <= Pow256(LENGTH_BYTES);
    DecodeEncode(|s.address|, LENGTH_BYTES);
  }

  lemma EnterOutput(s: State, side: Side, k: int)
    requires Inv(s) && Enabled(s, Enter(side, k))
    ensures ServerOutput(Next(s, Enter(side, k)))
  {
    if side.Server? {
      assert s.server.output == Header(s);
    }
  }

  lemma RecvBarrierOutput(s: State, side: Side, k: int)
    requires Inv(s) && Enabled(s, RecvBarrier(side, k))
    ensures ServerOutput(Next(s, RecvBarrier(side, k)))
  {
  }

  lemma SendLenOutput(s: State, k: int)
    requires Inv(s) && Enabled(s, SendLen(k))
    ensures ServerOutput(Next(s, SendLen(k)))
  {
    var e := s.lengthField;
    assert [] + e[..Count(k)] == e[..Count(k)];
    assert e[..LENGTH_BYTES] == e;
  }

  lemma SendAddrOutput(s: State, k: int)
    requires Inv(s) && Enabled(s, SendAddr(k))
    ensures ServerOutput(Next(s, SendAddr(k)))
  {
    assert s.address[..|s.address|] == s.address;
  }

  lemma KeepsServerOutput(s: State, a: Action)
    requires Inv(s) && Enabled(s, a)
    ensures ServerOutput(Next(s, a))
  {
    match a
    case SendLen(k) => SendLenOutput(s, k);
    case SendAddr(k) => SendAddrOutput(s, k);
    case Enter(side, k) => EnterOutput(s, side, k);
    case RecvBarrier(side, k) => RecvBarrierOutput(s, side, k);
    case _ =>
  }

  lemma KeepsClientOutput(s: State, a: Action)
    requires Inv(s) && Enabled(s, a)
    ensures ClientOutput(Next(s, a))
  {
  }

  lemma KeepsChannels(s: State, a: Action)
    requires Inv(s) && Enabled(s, a)
    ensures Channels(Next(s, a))
  {
  }

  /** The first eight bytes the client reads are the length of the address. */
  lemma ReadsLength(s: State)
    requires Inv(s) && Enabled(s, RecvLen(LENGTH_BYTES))
    ensures s.toClient[..LENGTH_BYTES] == s.lengthField
    ensures Decode(s.toClient[..LENGTH_BYTES]) == |s.address|
  {
    assert [] + s.toClient == s.toClient;
    assert s.toClient[..LENGTH_BYTES] == Header(s)[..LENGTH_BYTES];
  }

  /** The bytes after them, as many as announced, are the address. */
  lemma ReadsAddress(s: State)
    requires Inv(s) && Enabled(s, RecvAddr(|s.address|))
    ensures s.toClient[..|s.address|] == s.address
  {
    var n := |s.address|;
    var all := s.client.input + s.toClient;
    assert all[LENGTH_BYTES..LENGTH_BYTES + n] == s.toClient[..n];
    assert Header(s)[LENGTH_BYTES..LENGTH_BYTES + n] == s.address;
    assert all[..LENGTH_BYTES + n] == Header(s)[..LENGTH_BYTES + n];
  }

  lemma RecvLenInput(s: State, k: int)
    requires Inv(s) && Enabled(s, RecvLen(k))
    ensures ClientInput(Next(s, RecvLen(k)))
  {
    if k == LENGTH_BYTES {
      ReadsLength(s);
      assert [] + s.toClient[..k] == s.toClient[..k];
    }
  }

  lemma RecvAddrInput(s: State, k: int)
    requires Inv(s) && Enabled(s, RecvAddr(k))
    ensures ClientInput(Next(s, RecvAddr(k)))
  {
    if k == s.clientPc.want {
      ReadsAddress(s);
    }
  }

  lemma RecvBarrierInput(s: State, side: Side, k: int)
    requires Inv(s) && Enabled(s, RecvBarrier(side, k))
    ensures ClientInput(Next(s, RecvBarrier(side, k)))
  {
  }

  lemma KeepsClientInput(s: State, a: Action)
    requires Inv(s) && Enabled(s, a)
    ensures ClientInput(Next(s, a))
  {
    match a
    case RecvLen(k) => RecvLenInput(s, k);
    case RecvAddr(k) => RecvAddrInput(s, k);
    case RecvBarrier(side, k) => RecvBarrierInput(s, side, k);
    case _ =>
  }

  lemma KeepsServerInput(s: State, a: Action)
    requires Inv(s) && Enabled(s, a)
    ensures ServerInput(Next(s, a))
  {
  }

  lemma KeepsServerFlags(s: State, a: Action)
    requires Inv(s) && Enabled(s, a)
    ensures FlagsOf(Next(s, a), Server)
  {
    hide ServerOutput, ClientOutput, Channels, ClientInput, ServerInput;
  }

  lemma KeepsClientFlags(s: State, a: Action)
    requires Inv(s) && Enabled(s, a)
    ensures FlagsOf(Next(s, a), Client)
  {
    hide ServerOutput, ClientOutput, Channels, ClientInput, ServerInput;
  }

  ghost predicate IsStep(s: State, a: Action, t: State) {
    Enabled(s, a) && t == Next(s, a)
  }

  lemma InvNext(s: State, a: Action, t: State)
    requires Inv(s) && IsStep(s, a, t)
    ensures Inv(t) && t.address == s.address && t.lengthField == s.lengthField
  {
    KeepsServerOutput(s, a);
    KeepsClientOutput(s, a);
    KeepsChannels(s, a);
    KeepsClientInput(s, a);
    KeepsServerInput(s, a);
    KeepsServerFlags(s, a);
    KeepsClientFlags(s, a);
  }

  // ---------------------------------------------------------------- runs

  ghost predicate IsRun(states: seq<State>, actions: seq<Action>) {
    && |states| == |actions| + 1 && Init(states[0])
    && forall i | 0 <= i < |actions| :: IsStep(states[i], actions[i], states[i + 1])
  }

  lemma {:induction false} Reachable(states: seq<State>, actions: seq<Action>, i: nat)
    requires IsRun(states, actions) && i < |states|
    ensures Inv(states[i]) && states[i].address == states[0].address
  {
    if i > 0 {
      Reachable(states, actions, i - 1);
      InvNext(states[i - 1], actions[i - 1], states[i]);
    } else {
      InvInit(states[0]);
    }
  }

  /** The client starts its run only with exactly the address the server sent, and then nothing of the
      exchange is left on the socket. */
  lemma AddressArrives(states: seq<State>, actions: seq<Action>, i: nat)
    requires IsRun(states, actions) && i < |states|
    requires states[i].clientPc == ClientTail(Running)
    ensures states[i].peerAddress == states[0].address
    ensures states[i].server.output == Header(states[i]) + states[i].toClient
    ensures !states[i].server.entered ==> states[i].toClient == []
  {
    Reachable(states, actions, i);
    var s := states[i];
    assert s.client.input + s.toClient == s.server.output;
    if !s.server.entered {
      assert |s.server.output| <= |Header(s)|;
    }
  }

  /** The barrier: it returns 0 in one process only if the run of the peer returned 0 and the peer has
      entered its own barrier. */
  lemma BarrierMeansPeerEntered(states: seq<State>, actions: seq<Action>, i: nat, side: Side)
    requires IsRun(states, actions) && i < |states| && ProcOf(states[i], side).barrierOk
    ensures ProcOf(states[i], Peer(side)).entered && ProcOf(states[i], Peer(side)).ranOk
    ensures ProcOf(states[i], side).ranOk
  {
    Reachable(states, actions, i);
    var s := states[i];
    match side
    case Server =>
      assert |s.client.output| == |s.server.input| + |s.toServer|;
    case Client =>
      assert |s.server.output| == |s.client.input| + |s.toClient|;
  }

  /** A step in which a call of the address exchange returned 0 although bytes were asked for: the guard
      of the failing branch holds, and its 0 becomes the exit status. */
  ghost predicate CutAtZero(s: State, a: Action, side: Side) {
    match a
    case SendLen(k) => side.Server? && k == 0
    case SendAddr(k) => side.Server? && k == 0 && s.address != []
    case RecvLen(k) => side.Client? && k == 0
    case RecvAddr(k) => side.Client? && k == 0 && s.clientPc.ReceiveAddress? && s.clientPc.want != 0
    case _ => false
  }

  ghost predicate ZeroWithoutBarrier(s: State, side: Side) {
    TailOf(s, side) == Exited(0) && !ProcOf(s, side).barrierOk
  }

  /** Actions of the address exchange. */
  predicate InExchange(a: Action) {
    a.SendLen? || a.SendAddr? || a.RecvLen? || a.RecvAddr? || a.MallocFails?
  }

  lemma ServerExchangeStep(s: State, a: Action, t: State)
    requires Inv(s) && IsStep(s, a, t) && InExchange(a)
    ensures ZeroWithoutBarrier(t, Server) <==> ZeroWithoutBarrier(s, Server) || CutAtZero(s, a, Server)
  {
  }

  lemma ClientExchangeStep(s: State, a: Action, t: State)
    requires Inv(s) && IsStep(s, a, t) && InExchange(a)
    ensures ZeroWithoutBarrier(t, Client) <==> ZeroWithoutBarrier(s, Client) || CutAtZero(s, a, Client)
  {
  }

  lemma TailStep(s: State, a: Action, t: State, side: Side)
    requires Inv(s) && IsStep(s, a, t) && !InExchange(a)
    ensures ZeroWithoutBarrier(t, side) <==> ZeroWithoutBarrier(s, side)
  {
  }

  ghost predicate CutBefore(states: seq<State>, actions: seq<Action>, i: nat, side: Side)
    requires |states| == |actions| + 1 && i < |states|
  {
    exists j :: 0 <= j < i && CutAtZero(states[j], actions[j], side)
  }

  lemma CutStep(s: State, a: Action, t: State, side: Side)
    requires Inv(s) && IsStep(s, a, t)
    ensures ZeroWithoutBarrier(t, side) <==> ZeroWithoutBarrier(s, side) || CutAtZero(s, a, side)
  {
    if InExchange(a) {
      match side
      case Server => ServerExchangeStep(s, a, t);
      case Client => ClientExchangeStep(s, a, t);
    } else {
      TailStep(s, a, t, side);
    }
  }

  lemma CutAt(states: seq<State>, actions: seq<Action>, i: nat, side: Side)
    requires IsRun(states, actions) && 0 < i < |states|
    ensures ZeroWithoutBarrier(states[i], side)
       <==> ZeroWithoutBarrier(states[i - 1], side) || CutAtZero(states[i - 1], actions[i - 1], side)
  {
    Reachable(states, actions, i - 1);
    CutStep(states[i - 1], actions[i - 1], states[i], side);
  }

  lemma {:induction false} ZeroIffCut(states: seq<State>, actions: seq<Action>, i: nat, side: Side)
    requires IsRun(states, actions) && i < |states|
    ensures ZeroWithoutBarrier(states[i], side) <==> CutBefore(states, actions, i, side)
  {
    if i > 0 {
      ZeroIffCut(states, actions, i - 1, side);
      CutAt(states, actions, i, side);
    }
  }

  /** The exit status: main returns 0 exactly if the barrier succeeded or a call of the address exchange
      returned 0 although it was asked for bytes; never both, and in the second case run_ucx_* was not
      reached. So after a run that returned 0, exit status 0 is a passed barrier. */
  lemma ExitZeroExactly(states: seq<State>, actions: seq<Action>, i: nat, side: Side)
    requires IsRun(states, actions) && i < |states|
    ensures TailOf(states[i], side) == Exited(0)
       <==> ProcOf(states[i], side).barrierOk || CutBefore(states, actions, i, side)
    ensures !(ProcOf(states[i], side).barrierOk && CutBefore(states, actions, i, side))
    ensures CutBefore(states, actions, i, side) ==> !ProcOf(states[i], side).ranOk && !ProcOf(states[i], side).entered
  {
    Reachable(states, actions, i);
    ZeroIffCut(states, actions, i, side);
  }

  lemma Extend(states: seq<State>, actions: seq<Action>, a: Action) returns (states': seq<State>, actions': seq<Action>)
    requires IsRun(states, actions) && Enabled(states[|states| - 1], a)
    ensures IsRun(states', actions') && states'[0] == states[0] && actions' == actions + [a]
    ensures |states'| == |states| + 1 && states'[|states|] == Next(states[|states| - 1], a)
  {
    states', actions' := states + [Next(states[|states| - 1], a)], actions + [a];
    forall i | 0 <= i < |actions'| ensures IsStep(states'[i], actions'[i], states'[i + 1]) {
      if i < |actions| {
        assert states'[i] == states[i] && states'[i + 1] == states[i + 1] && actions'[i] == actions[i];
      }
    }
  }

  /** Without the run the exit status means nothing: when the peer closes the socket before it has sent a
      byte, recv returns 0, and that 0 is what main returns. */
  lemma ExitZeroWithoutRun(s: State) returns (states: seq<State>, actions: seq<Action>)
    requires Init(s)
    ensures IsRun(states, actions) && states[0] == s
    ensures var t := states[|states| - 1];
            TailOf(t, Client) == Exited(0) && !t.client.ranOk && !t.client.barrierOk && t.client.input == []
  {
    actions := [SendLen(-1), RecvLen(0)];
    var s1 := Next(s, SendLen(-1));
    var s2 := Next(s1, RecvLen(0));
    states := [s, s1, s2];
  }

  /** The same whenever the client has the length and waits for the address: any such run goes on to an
      exit status of 0 by a recv that returns 0. */
  lemma ExitZeroAfterLength(states: seq<State>, actions: seq<Action>)
    returns (states': seq<State>, actions': seq<Action>)
    requires IsRun(states, actions)
    requires var s := states[|states| - 1]; s.clientPc.ReceiveAddress? && s.clientPc.want > 0
    ensures IsRun(states', actions') && actions' == actions + [RecvAddr(0)]
    ensures var t := states'[|states'| - 1];
            TailOf(t, Client) == Exited(0) && !t.client.ranOk && !t.client.barrierOk
  {
    states', actions' := Extend(states, actions, RecvAddr(0));
    Reachable(states, actions, |actions|);
  }

  lemma RanStep(s: State, a: Action, t: State, side: Side)
    requires Inv(s) && IsStep(s, a, t)
    ensures ProcOf(t, side).ranOk <==> ProcOf(s, side).ranOk || a == RunEnds(side, 0)
  {
    hide ServerOutput, ClientOutput, Channels, ClientInput, ServerInput;
  }

  lemma EnteredStep(s: State, a: Action, t: State, side: Side)
    requires IsStep(s, a, t)
    ensures ProcOf(t, side).entered <==> ProcOf(s, side).entered || (a.Enter? && a.side == side)
  {
  }

  lemma PassedStep(s: State, a: Action, t: State, side: Side)
    requires Inv(s) && IsStep(s, a, t)
    ensures ProcOf(t, side).barrierOk <==> ProcOf(s, side).barrierOk || a == RecvBarrier(side, BARRIER_BYTES)
  {
    hide ServerOutput, ClientOutput, Channels, ClientInput, ServerInput;
  }

  lemma FlagsAt(states: seq<State>, actions: seq<Action>, i: nat, side: Side)
    requires IsRun(states, actions) && i < |actions|
    ensures ProcOf(states[i + 1], side).ranOk <==> ProcOf(states[i], side).ranOk || actions[i] == RunEnds(side, 0)
    ensures ProcOf(states[i + 1], side).entered
       <==> ProcOf(states[i], side).entered || (actions[i].Enter? && actions[i].side == side)
    ensures ProcOf(states[i + 1], side).barrierOk
       <==> ProcOf(states[i], side).barrierOk || actions[i] == RecvBarrier(side, BARRIER_BYTES)
  {
    Reachable(states, actions, i);
    var s, a, t := states[i], actions[i], states[i + 1];
    RanStep(s, a, t, side);
    EnteredStep(s, a, t, side);
    PassedStep(s, a, t, side);
  }

  /** The flags of a process are what its steps have been: its run returned 0, it called the barrier, and it
      received the bytes of its peer. */
  lemma {:induction false} FlagsAreHistory(states: seq<State>, actions: seq<Action>, i: nat, side: Side)
    requires IsRun(states, actions) && i < |states|
    ensures ProcOf(states[i], side).ranOk <==> RunEnds(side, 0) in actions[..i]
    ensures ProcOf(states[i], side).entered <==> exists k :: Enter(side, k) in actions[..i]
    ensures ProcOf(states[i], side).barrierOk <==> RecvBarrier(side, BARRIER_BYTES) in actions[..i]
  {
    if i > 0 {
      assert actions[..i] == actions[..i - 1] + [actions[i - 1]];
      FlagsAreHistory(states, actions, i - 1, side);
      FlagsAt(states, actions, i - 1, side);
    }
  }

  // ---------------------------------------------------------------- every exit status

  /** The call or the step that ends a process, with the status main then returns: what the call returned,
      the size of the length when malloc fails, and 0 or 1 from the barrier. */
  ghost predicate EndsWith(s: State, a: Action, side: Side, ret: int) {
    match a
    case SendLen(k) => side.Server? && k != LENGTH_BYTES && ret == k
    case SendAddr(k) => side.Server? && k != |s.address| && ret == k
    case RecvLen(k) => side.Client? && k != LENGTH_BYTES && ret == k
    case RecvAddr(k) => side.Client? && s.clientPc.ReceiveAddress? && k != s.clientPc.want && ret == k
    case MallocFails => side.Client? && ret == LENGTH_BYTES
    case RunEnds(which, k) => side == which && k != 0 && ret == k
    case Enter(which, k) => side == which && k < 0 && ret == k
    case PollReturns(_) => false
    case RecvBarrier(which, k) => side == which && ret == if k == BARRIER_BYTES then 0 else 1
  }

  lemma ExitStep(s: State, a: Action, t: State, side: Side, ret: int)
    requires IsStep(s, a, t)
    ensures TailOf(t, side) == Exited(ret) <==> TailOf(s, side) == Exited(ret) || EndsWith(s, a, side, ret)
  {
  }

  /** A process has exited with a status if and only if an earlier step of its own ended it with that one. */
  lemma {:induction false} ExitStatusIff(states: seq<State>, actions: seq<Action>, i: nat, side: Side, ret: int)
    requires IsRun(states, actions) && i < |states|
    ensures TailOf(states[i], side) == Exited(ret)
       <==> exists j :: 0 <= j < i && EndsWith(states[j], actions[j], side, ret)
  {
    if i > 0 {
      ExitStatusIff(states, actions, i - 1, side, ret);
      ExitStep(states[i - 1], actions[i - 1], states[i], side, ret);
    }
  }

  // ---------------------------------------------------------------- a run that passes

  /** Both have the address, and nothing is on the socket. */
  ghost predicate Exchanged(s: State) {
    && s.serverPc == ServerTail(Running) && s.clientPc == ClientTail(Running)
    && s.toClient == [] && s.toServer == [] && s.server.input == [] && s.client.output == []
  }

  lemma SendHeader(s: State) returns (states: seq<State>, actions: seq<Action>)
    requires Init(s)
    ensures IsRun(states, actions) && states[0] == s
    ensures var t := states[|states| - 1];
            && t == s.(serverPc := ServerTail(Running), server := t.server, toClient := Header(s))
            && t.server.input == []
  {
    states, actions := [s], [];
    Reachable(states, actions, 0);
    states, actions := Extend(states, actions, SendLen(LENGTH_BYTES));
    states, actions := Extend(states, actions, SendAddr(|s.address|));
    assert [] + s.lengthField[..LENGTH_BYTES] == s.lengthField;
    assert s.address[..|s.address|] == s.address;
  }

  lemma ExchangeAddress(s: State) returns (states: seq<State>, actions: seq<Action>)
    requires Init(s)
    ensures IsRun(states, actions) && states[0] == s && Exchanged(states[|states| - 1])
  {
    states, actions := SendHeader(s);
    Reachable(states, actions, |states| - 1);
    ReadsLength(states[|states| - 1]);
    states, actions := Extend(states, actions, RecvLen(LENGTH_BYTES));
    assert Header(s)[LENGTH_BYTES..] == s.address;
    states, actions := Extend(states, actions, RecvAddr(|s.address|));
  }

  /** Both have entered the barrier, and the bytes of both are on their way. */
  ghost predicate BothEntered(s: State) {
    && s.serverPc == ServerTail(BarrierPoll) && s.clientPc == ClientTail(BarrierPoll)
    && |s.toClient| == |s.toServer| == BARRIER_BYTES
  }

  lemma EnterBarrier(states: seq<State>, actions: seq<Action>)
    returns (states': seq<State>, actions': seq<Action>)
    requires IsRun(states, actions) && Exchanged(states[|states| - 1])
    ensures IsRun(states', actions') && states'[0] == states[0] && BothEntered(states'[|states'| - 1])
  {
    states', actions' := Extend(states, actions, RunEnds(Server, 0));
    states', actions' := Extend(states', actions', RunEnds(Client, 0));
    states', actions' := Extend(states', actions', Enter(Server, BARRIER_BYTES));
    states', actions' := Extend(states', actions', Enter(Client, BARRIER_BYTES));
  }

  lemma LeaveBarrier(states: seq<State>, actions: seq<Action>)
    returns (states': seq<State>, actions': seq<Action>)
    requires IsRun(states, actions) && BothEntered(states[|states| - 1])
    ensures IsRun(states', actions') && states'[0] == states[0]
    ensures var t := states'[|states'| - 1];
            && TailOf(t, Server) == Exited(0) && TailOf(t, Client) == Exited(0)
            && t.server.barrierOk && t.client.barrierOk
  {
    states', actions' := Extend(states, actions, PollReturns(Server));
    states', actions' := Extend(states', actions', PollReturns(Client));
    states', actions' := Extend(states', actions', RecvBarrier(Server, BARRIER_BYTES));
    states', actions' := Extend(states', actions', RecvBarrier(Client, BARRIER_BYTES));
  }

  /** For every address there is a run in which both processes pass the barrier and exit with 0. */
  lemma BarrierCanPass(s: State) returns (states: seq<State>, actions: seq<Action>)
    requires Init(s)
    ensures IsRun(states, actions) && states[0] == s
    ensures var t := states[|states| - 1];
            && TailOf(t, Server) == Exited(0) && TailOf(t, Client) == Exited(0)
            && t.server.barrierOk && t.client.barrierOk
  {
    states, actions := ExchangeAddress(s);
    states, actions := EnterBarrier(states, actions);
    states, actions := LeaveBarrier(states, actions);
  }
}
