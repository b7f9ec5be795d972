/** One process of the client/server program: the buffers, the stack object `ctx` and the request of one
    exchange, under every pattern of allocation failures and every outcome of the UCX call.

    UCX is given by its contract: a posting call completes at once, fails, or returns a request whose
    callback runs exactly once, either inside the posting call or in a later progress call. A finite
    schedule says in which progress calls that happens; when a schedule ends, the C code is still in its
    wait loop and the method returns `StillWaiting`. */
module Exchange {
  import opened Common

  /** A buffer pointer; 0 is NULL. */
  type Ptr = nat

  datatype Iov = Iov(buffer: Ptr, length: nat)

  datatype Kind = StreamSend | StreamReceive | TagSend | TagReceive | AmSend | AmReceive

  predicate IsSender(kind: Kind) {
    kind.StreamSend? || kind.TagSend? || kind.AmSend?
  }

  /** What the environment does to one call of send_recv_*: which allocations and fills succeed, whether
      each progress call brings the awaited AM callback and whether it announces a rendezvous, how the
      UCX call ends, in which progress calls its callback would run, and the final request status. */
  datatype World = World(mallocOk: seq<bool>, fillOk: seq<bool>, arrivals: seq<bool>, rendezvous: bool,
                         posted: Posted, callbacks: seq<bool>, statusOk: bool)

  /** An operation UCX still works on: the buffers it may touch and the ctx its callback will write. */
  datatype Op = Op(buffers: set<Ptr>, ctx: nat)

  function At(s: seq<bool>, k: nat): bool {
    k < |s| && s[k]
  }

  /** Every buffer can be allocated and, at the sender, filled. */
  predicate Prepared(isSender: bool, iovCnt: nat, w: World) {
    forall k | 0 <= k < iovCnt :: At(w.mallocOk, k) && (isSender ==> At(w.fillOk, k))
  }

  function Completion(posted: Posted, w: World): Outcome {
    match posted
    case Immediate => Success
    case Failed => Failure
    case Pending(inCall) =>
      if !inCall && true !in w.callbacks then StillWaiting
      else if w.statusOk then Success else Failure
  }

  /** How one call of send_recv_* must end in a given environment. */
  function Expected(kind: Kind, iovCnt: nat, w: World): Outcome {
    if !Prepared(IsSender(kind), iovCnt, w) then Failure
    else if kind.AmReceive? && true !in w.arrivals then StillWaiting
    else Completion(if kind.AmReceive? && !w.rendezvous then Immediate else w.posted, w)
  }

  function Buffers(s: seq<Iov>): (r: set<Ptr>)
    ensures forall p :: p in r <==> p != 0 && exists k :: 0 <= k < |s| && s[k].buffer == p
  {
    set k | 0 <= k < |s| && s[k].buffer != 0 :: s[k].buffer
  }

  ghost predicate Distinct(s: seq<Iov>) {
    forall j, k | 0 <= j < k < |s| && s[j].buffer != 0 :: s[j].buffer != s[k].buffer
  }

  lemma BuffersUpdate(s: seq<Iov>, k: nat, x: Iov)
    requires k < |s| && s[k].buffer == 0
    ensures Buffers(s[k := x]) == Buffers(s) + (if x.buffer != 0 then {x.buffer} else {})
  {
    var t := s[k := x];
    assert forall j | 0 <= j < |s| && j != k :: t[j] == s[j];
    assert t[k] == x;
    forall p | p in Buffers(s) ensures p in Buffers(t) {
      var j :| 0 <= j < |s| && s[j].buffer == p;
      assert t[j].buffer == p;
    }
  }

  datatype Transport = Stream | Tag | Am

  function KindOf(transport: Transport, isServer: bool): Kind {
    match transport
    case Stream => if isServer then StreamReceive else StreamSend
    case Tag => if isServer then TagReceive else TagSend
    case Am => if isServer then AmReceive else AmSend
  }

  /** The first exchange from the k-th on that does not succeed decides; the FIN runs the other way. */
  function ExpectedWork(transport: Transport, isServer: bool, n: nat, iovCnt: nat, worlds: seq<World>,
                        registerOk: bool, closed: bool, k: nat): Outcome
    requires k <= n < |worlds|
    decreases n - k
  {
    if k < n then
      var r := Expected(KindOf(transport, isServer), iovCnt, worlds[k]);
      if r.Success? then ExpectedWork(transport, isServer, n, iovCnt, worlds, registerOk, closed, k + 1) else r
    else if !isServer && transport.Am? && !registerOk then Failure
    else
      var r := Expected(KindOf(transport, !isServer), iovCnt, worlds[n]);
      if r.Success? && isServer && !closed then StillWaiting else r
  }

  class Process {
    var live: set<Ptr>            // allocated and not freed
    var nextBlock: Ptr
    var frees: multiset<Ptr>      // every call of free so far
    var complete: map<nat, bool>  // ctx objects in scope
    var nextCtx: nat
    var inflight: Option<Op>
    var requests: nat             // requests returned by UCX and not freed

    /** Every block ever allocated is live, or was freed exactly once; what UCX works on is in place. */
    ghost predicate Valid()
      reads this
    {
      && nextBlock > 0
      && (forall p | p in live :: 0 < p < nextBlock)
      && (forall p :: frees[p] == if 0 < p < nextBlock && p !in live then 1 else 0)
      && (forall c | c in complete :: c < nextCtx)
      && (inflight.Some? ==> inflight.value.buffers <= live && inflight.value.ctx in complete)
    }

    constructor ()
      ensures Valid() && live == {} && inflight.None? && requests == 0 && complete == map[]
    {
      live, nextBlock, frees, complete, nextCtx, inflight, requests := {}, 1, multiset{}, map[], 0, None, 0;
    }

    method Malloc(ok: bool) returns (p: Ptr)
      requires Valid()
      modifies this`live, this`nextBlock
      ensures Valid()
      ensures ok ==> p == old(nextBlock) != 0 && p !in old(live) && live == old(live) + {p} && nextBlock == p + 1
      ensures !ok ==> p == 0 && live == old(live) && nextBlock == old(nextBlock)
    {
      if ok {
        p := nextBlock;
        live := live + {p};
        nextBlock := nextBlock + 1;
      } else {
        p := 0;
      }
    }

    /** Never a block twice, never a block UCX still works on; NULL is ignored. */
    method Free(p: Ptr)
      requires Valid()
      requires p != 0 ==> p in live && (inflight.Some? ==> p !in inflight.value.buffers)
      modifies this`live, this`frees
      ensures Valid() && live == old(live) - {p}
      ensures frees == if p == 0 then old(frees) else old(frees) + multiset{p}
    {
      if p != 0 {
        live := live - {p};
        frees := frees + multiset{p};
      }
    }

    method BufferFree(iov: array<Iov>)
      requires Valid() && Distinct(iov[..]) && Buffers(iov[..]) <= live
      requires inflight.Some? ==> inflight.value.buffers !! Buffers(iov[..])
      modifies this`live, this`frees
      ensures Valid() && live == old(live) - Buffers(iov[..])
    {
      for idx := 0 to iov.Length
        invariant Valid() && live == old(live) - Buffers(iov[..idx])
      {
        assert Buffers(iov[..idx + 1]) == Buffers(iov[..idx]) + (if iov[idx].buffer != 0 then {iov[idx].buffer} else {})
          by { assert iov[..idx + 1] == iov[..idx] + [iov[idx]]; }
        Free(iov[idx].buffer);
      }
      assert iov[..iov.Length] == iov[..];
    }

    /** On a failed allocation the whole array is freed, which is right only because it was zeroed. */
    method BufferMalloc(iov: array<Iov>, length: nat, mallocOk: seq<bool>) returns (ret: int)
      requires Valid() && inflight.None? && forall k | 0 <= k < iov.Length :: iov[k].buffer == 0
      modifies this`live, this`nextBlock, this`frees, iov
      ensures Valid() && ret in {0, -1} && old(nextBlock) <= nextBlock
      ensures ret == 0 <==> forall k | 0 <= k < iov.Length :: At(mallocOk, k)
      ensures ret == 0 ==> Distinct(iov[..]) && live == old(live) + Buffers(iov[..]) && Buffers(iov[..]) !! old(live)
                           && forall k | 0 <= k < iov.Length :: iov[k].buffer != 0 && iov[k].length == length
      ensures ret == -1 ==> live == old(live)
    {
      var idx := 0;
      while idx < iov.Length
        invariant 0 <= idx <= iov.Length && Valid() && old(nextBlock) <= nextBlock
        invariant forall k | 0 <= k < idx :: iov[k].length == length && At(mallocOk, k)
                                            && old(nextBlock) <= iov[k].buffer < nextBlock && iov[k].buffer != 0
        invariant forall k | idx <= k < iov.Length :: iov[k].buffer == 0
        invariant Distinct(iov[..])
        invariant live == old(live) + Buffers(iov[..]) && Buffers(iov[..]) !! old(live)
      {
        hide Buffers;
        ghost var before := iov[..];
        var p := Malloc(At(mallocOk, idx));
        iov[idx] := Iov(p, length);
        assert Buffers(iov[..]) == Buffers(before) + (if p != 0 then {p} else {})
          by { BuffersUpdate(before, idx, iov[idx]); assert iov[..] == before[idx := iov[idx]]; }
        if p == 0 {
          BufferFree(iov);
          return -1;
        }
        idx := idx + 1;
      }
      return 0;
    }

    // -------------------------------------------------------------- one exchange

    /** Fills the buffers one after the other and stops at the first failure. */
    method FillBuffer(iov: array<Iov>, fillOk: seq<bool>) returns (ret: int)
      ensures ret in {0, -1}
      ensures ret == 0 <==> forall k | 0 <= k < iov.Length :: At(fillOk, k)
    {
      for idx := 0 to iov.Length
        invariant forall k | 0 <= k < idx :: At(fillOk, k)
      {
        if !At(fillOk, idx) {
          return -1;
        }
      }
      return 0;
    }

    /** Allocates the buffers of one exchange, fills them at the sender, and resets `ctx`. */
    method FillRequestParam(iov: array<Iov>, isClient: bool, length: nat, ctx: nat, w: World) returns (ret: int)
      requires Valid() && inflight.None? && ctx in complete
      requires forall k | 0 <= k < iov.Length :: iov[k].buffer == 0
      modifies this`live, this`nextBlock, this`frees, this`complete, iov
      ensures Valid() && ret in {0, -1} && complete.Keys == old(complete.Keys) && old(nextBlock) <= nextBlock
      ensures ret == 0 <==> Prepared(isClient, iov.Length, w)
      ensures ret == 0 ==> Distinct(iov[..]) && live == old(live) + Buffers(iov[..]) && Buffers(iov[..]) !! old(live)
                           && !complete[ctx]
      ensures ret == -1 ==> live == old(live)
    {
      ret := BufferMalloc(iov, length, w.mallocOk);
      if ret != 0 {
        return -1;
      }
      if isClient {
        var filled := FillBuffer(iov, w.fillOk);
        if filled != 0 {
          BufferFree(iov);
          return -1;
        }
      }
      complete := complete[ctx := false];
      return 0;
    }

    /** The completion callback: it runs once per request and finds its ctx in scope. */
    method Callback()
      requires Valid() && inflight.Some?
      modifies this`inflight, this`complete
      ensures Valid() && inflight.None? && complete == old(complete)[old(inflight).value.ctx := true]
    {
      complete := complete[inflight.value.ctx := true];
      inflight := None;
    }

    /** A non-blocking UCX call on the buffers of `iov`; a NULL or error result leaves nothing behind. */
    method Post(iov: array<Iov>, ctx: nat, posted: Posted)
      requires Valid() && inflight.None? && ctx in complete && !complete[ctx] && Buffers(iov[..]) <= live
      modifies this`inflight, this`complete, this`requests
      ensures Valid() && complete.Keys == old(complete.Keys)
      ensures requests == old(requests) + if posted.Pending? then 1 else 0
      ensures inflight == if posted == Pending(false) then Some(Op(Buffers(iov[..]), ctx)) else None
      ensures posted.Pending? ==> complete[ctx] == posted.inCall
    {
      if posted.Pending? {
        requests := requests + 1;
        inflight := Some(Op(Buffers(iov[..]), ctx));
        if posted.inCall {
          Callback();
        }
      }
    }

    /** Progresses until the ctx is complete; only then is the request released. */
    method RequestWait(ctx: nat, w: World) returns (r: Outcome)
      requires Valid() && ctx in complete
      requires w.posted.Pending? ==> requests > 0 && (complete[ctx] <==> inflight.None?)
      requires w.posted.Pending? && inflight.Some? ==> inflight.value.ctx == ctx
      requires !w.posted.Pending? ==> inflight.None?
      modifies this`inflight, this`complete, this`requests
      ensures Valid() && complete.Keys == old(complete.Keys)
      ensures !r.StillWaiting? ==> inflight.None?
      ensures r.StillWaiting? ==> inflight == old(inflight) && inflight.Some? && requests == old(requests)
      ensures !r.StillWaiting? ==> requests == old(requests) - if w.posted.Pending? then 1 else 0
      ensures w.posted == Pending(true) ==> old(complete[ctx]) ==> r == Completion(w.posted, w)
      ensures w.posted == Pending(false) ==> !old(complete[ctx]) ==> r == Completion(w.posted, w)
      ensures !w.posted.Pending? ==> r == Completion(w.posted, w)
    {
      if w.posted.Immediate? {
        return Success;
      }
      if w.posted.Failed? {
        return Failure;
      }
      var i := 0;
      while !complete[ctx] && i < |w.callbacks|
        invariant Valid() && complete.Keys == old(complete.Keys) && requests == old(requests)
        invariant complete[ctx] <==> inflight.None?
        invariant inflight.Some? ==> inflight == old(inflight)
        invariant i <= |w.callbacks|
        invariant complete[ctx] <==> old(complete[ctx]) || true in w.callbacks[..i]
        decreases |w.callbacks| - i
      {
        if w.callbacks[i] {
          Callback();
        }
        i := i + 1;
      }
      assert w.callbacks[..|w.callbacks|] == w.callbacks;
      if !complete[ctx] {
        return StillWaiting;
      }
      requests := requests - 1;
      return if w.statusOk then Success else Failure;
    }

    /** Waits, then frees the buffers whatever the status was. */
    method RequestFinalize(iov: array<Iov>, ctx: nat, w: World) returns (r: Outcome)
      requires Valid() && ctx in complete && Distinct(iov[..]) && Buffers(iov[..]) <= live
      requires w.posted.Pending? ==> requests > 0 && (complete[ctx] <==> inflight.None?)
      requires w.posted.Pending? ==> complete[ctx] == w.posted.inCall
      requires inflight == None || (w.posted.Pending? && inflight == Some(Op(Buffers(iov[..]), ctx)))
      modifies this`inflight, this`complete, this`requests, this`live, this`frees
      ensures Valid() && complete.Keys == old(complete.Keys)
      ensures r.StillWaiting? ==> live == old(live) && inflight == old(inflight) && inflight.Some?
      ensures !r.StillWaiting? ==> live == old(live) - Buffers(iov[..]) && inflight.None?
                                   && requests == old(requests) - if w.posted.Pending? then 1 else 0
      ensures r == Completion(w.posted, w)
    {
      r := RequestWait(ctx, w);
      if r.StillWaiting? {
        return;
      }
      BufferFree(iov);
    }

    /** The loop that waits for the AM callback. */
    method AwaitMessage(arrivals: seq<bool>) returns (arrived: bool)
      ensures arrived <==> true in arrivals
    {
      arrived := false;
      var i := 0;
      while !arrived && i < |arrivals|
        invariant i <= |arrivals| && (arrived <==> true in arrivals[..i])
        decreases |arrivals| - i
      {
        arrived := arrivals[i];
        i := i + 1;
      }
      assert arrivals[..|arrivals|] == arrivals;
    }

    /** Posts the prepared operation, waits for it and frees the buffers. */
    method Perform(iov: array<Iov>, ctx: nat, posted: Posted, w: World) returns (r: Outcome)
      requires Valid() && inflight.None? && ctx in complete && !complete[ctx]
      requires Distinct(iov[..]) && Buffers(iov[..]) <= live
      modifies this`inflight, this`complete, this`requests, this`live, this`frees
      ensures Valid() && r == Completion(posted, w) && complete.Keys == old(complete.Keys)
      ensures r.StillWaiting? ==> live == old(live)
      ensures !r.StillWaiting? ==> live == old(live) - Buffers(iov[..]) && inflight.None? && requests == old(requests)
    {
      Post(iov, ctx, posted);
      r := RequestFinalize(iov, ctx, w.(posted := posted));
    }

    method SendRecvIn(ctx: nat, kind: Kind, iovCnt: nat, length: nat, w: World) returns (r: Outcome)
      requires Valid() && inflight.None? && complete.Keys == {ctx}
      modifies this
      ensures Valid() && r == Expected(kind, iovCnt, w) && old(nextBlock) <= nextBlock && nextCtx == old(nextCtx)
      ensures if r.StillWaiting? then old(live) <= live else live == old(live)
      ensures !r.StillWaiting? ==> inflight.None? && requests == old(requests)
    {
      var iov := new Iov[iovCnt](_ => Iov(0, 0));
      var filled := FillRequestParam(iov, IsSender(kind), length, ctx, w);
      if filled != 0 {
        return Failure;
      }
      var posted := w.posted;
      if kind.AmReceive? {
        var arrived := AwaitMessage(w.arrivals);
        if !arrived {
          return StillWaiting;
        }
        if !w.rendezvous {
          posted := Immediate;
        }
      }
      r := Perform(iov, ctx, posted, w);
    }

    /** One call of send_recv_stream, send_recv_tag or send_recv_am, with its activation. On every return
        each block it allocated has been freed exactly once, no request is open, nothing is in flight and
        `ctx` can go out of scope; while it still waits, what UCX works on is in place (`Valid`). */
    method SendRecv(kind: Kind, iovCnt: nat, length: nat, w: World) returns (r: Outcome)
      requires Valid() && inflight.None? && complete == map[]
      modifies this
      ensures Valid() && r == Expected(kind, iovCnt, w) && old(nextBlock) <= nextBlock
      ensures !r.StillWaiting? ==> live == old(live) && inflight.None? && requests == old(requests) && complete == map[]
      ensures !r.StillWaiting? ==> forall p | old(nextBlock) <= p < nextBlock :: frees[p] == old(frees[p]) + 1
      ensures forall p | p in old(live) :: p in live && frees[p] == old(frees[p])
    {
      var ctx := nextCtx;
      nextCtx := nextCtx + 1;
      var uninitialised: bool := *;
      complete := complete[ctx := uninitialised];
      r := SendRecvIn(ctx, kind, iovCnt, length, w);
      if !r.StillWaiting? {
        complete := map[];
      }
    }

    /** All iterations and the FIN in the reverse direction. `worlds[k]` is the environment of iteration
        k, and `worlds[n]` that of the FIN; `closed` says whether the peer closes while the server waits. */
    method DoWork(transport: Transport, isServer: bool, n: nat, iovCnt: nat, length: nat, worlds: seq<World>,
                  registerOk: bool, closed: bool) returns (r: Outcome)
      requires Valid() && inflight.None? && complete == map[] && |worlds| == n + 1
      modifies this
      ensures Valid()
      ensures r == ExpectedWork(transport, isServer, n, iovCnt, worlds, registerOk, closed, 0)
      ensures !r.StillWaiting? ==> live == old(live) && inflight.None? && requests == old(requests) && complete == map[]
      ensures !r.StillWaiting? ==> forall p | old(nextBlock) <= p < nextBlock :: frees[p] == 1
    {
      var i := 0;
      while i < n
        invariant 0 <= i <= n && Valid() && live == old(live) && inflight.None? && requests == old(requests)
        invariant complete == map[] && old(nextBlock) <= nextBlock
        invariant ExpectedWork(transport, isServer, n, iovCnt, worlds, registerOk, closed, 0)
               == ExpectedWork(transport, isServer, n, iovCnt, worlds, registerOk, closed, i)
      {
        r := SendRecv(KindOf(transport, isServer), iovCnt, length, worlds[i]);
        if !r.Success? {
          return;
        }
        i := i + 1;
      }
      if !isServer && transport.Am? && !registerOk {
        return Failure;
      }
      r := SendRecv(KindOf(transport, !isServer), iovCnt, length, worlds[n]);
      if r.Success? && isServer && !closed {
        r := StillWaiting;
      }
    }
  }

}
