/** When an exchange of `Exchange` succeeds, when it fails and when it waits for ever, said on what its
    environment does: the allocations and fills, the arrivals, the UCX call, its callback and its status. */
module ExchangeResults {
  import opened Common
  import opened Exchange

  // ---------------------------------------------------------------- one exchange

  /** Every buffer can be allocated and, at the sender, filled. */
  predicate Ready(kind: Kind, iovCnt: nat, w: World) {
    && iovCnt <= |w.mallocOk| && (forall k | 0 <= k < iovCnt :: w.mallocOk[k])
    && (kind in {StreamSend, TagSend, AmSend} ==> iovCnt <= |w.fillOk| && forall k | 0 <= k < iovCnt :: w.fillOk[k])
  }

  /** An eager AM is received without a UCX call. */
  predicate NeedsNoCall(kind: Kind, w: World) {
    kind == AmReceive && !w.rendezvous
  }

  predicate Succeeds(kind: Kind, iovCnt: nat, w: World) {
    && Ready(kind, iovCnt, w) && (kind == AmReceive ==> true in w.arrivals)
    && (NeedsNoCall(kind, w) || w.posted == Immediate
        || (w.statusOk && (w.posted == Pending(true) || (w.posted == Pending(false) && true in w.callbacks))))
  }

  /** Nobody tells it: the awaited message does not come, or the callback of a request does not run. */
  predicate Waits(kind: Kind, iovCnt: nat, w: World) {
    && Ready(kind, iovCnt, w)
    && ((kind == AmReceive && true !in w.arrivals)
        || (!NeedsNoCall(kind, w) && w.posted == Pending(false) && true !in w.callbacks))
  }

  /** A buffer is missing or not filled, the UCX call returns an error, or its status is one. */
  predicate Fails(kind: Kind, iovCnt: nat, w: World) {
    || !Ready(kind, iovCnt, w)
    || ((kind == AmReceive ==> true in w.arrivals) && !NeedsNoCall(kind, w)
        && (w.posted == Failed
            || (!w.statusOk && (w.posted == Pending(true) || (w.posted == Pending(false) && true in w.callbacks)))))
  }

  lemma ReadyIff(kind: Kind, iovCnt: nat, w: World)
    ensures Ready(kind, iovCnt, w) <==> Prepared(IsSender(kind), iovCnt, w)
  {
    if Prepared(IsSender(kind), iovCnt, w) && iovCnt > 0 {
      assert At(w.mallocOk, iovCnt - 1);
      assert forall k | 0 <= k < iovCnt :: At(w.mallocOk, k) ==> w.mallocOk[k];
      assert IsSender(kind) ==> At(w.fillOk, iovCnt - 1);
      assert forall k | 0 <= k < iovCnt && IsSender(kind) :: At(w.fillOk, k) ==> w.fillOk[k];
    }
  }

  /** Exactly one of the three is the result of the exchange. */
  lemma ResultIff(kind: Kind, iovCnt: nat, w: World)
    ensures Expected(kind, iovCnt, w).Success? <==> Succeeds(kind, iovCnt, w)
    ensures Expected(kind, iovCnt, w).StillWaiting? <==> Waits(kind, iovCnt, w)
    ensures Expected(kind, iovCnt, w).Failure? <==> Fails(kind, iovCnt, w)
  {
    assert Ready(kind, iovCnt, w) <==> Prepared(IsSender(kind), iovCnt, w) by {
      ReadyIff(kind, iovCnt, w);
    }
  }

  // ---------------------------------------------------------------- the whole work

  /** The client sends and the server receives; the FIN goes the other way. */
  lemma Directions(transport: Transport, isServer: bool)
    ensures KindOf(transport, isServer) in {StreamSend, TagSend, AmSend} <==> !isServer
    ensures KindOf(transport, isServer) in
              match transport
              case Stream => {StreamSend, StreamReceive}
              case Tag => {TagSend, TagReceive}
              case Am => {AmSend, AmReceive}
  {
  }

  /** Iterations k to j go through. */
  predicate GoThrough(kind: Kind, iovCnt: nat, worlds: seq<World>, k: nat, j: nat)
    requires j <= |worlds|
  {
    forall i | k <= i < j :: Succeeds(kind, iovCnt, worlds[i])
  }

  /** The work succeeds exactly if every iteration does, the client can register its handler for the FIN,
      the FIN goes through in the reverse direction, and at the server the peer closes. */
  lemma {:induction false} WorkSucceedsIff(transport: Transport, isServer: bool, n: nat, iovCnt: nat,
                                           worlds: seq<World>, registerOk: bool, closed: bool, k: nat)
    requires k <= n < |worlds|
    ensures ExpectedWork(transport, isServer, n, iovCnt, worlds, registerOk, closed, k).Success?
       <==> && GoThrough(KindOf(transport, isServer), iovCnt, worlds, k, n)
            && (!isServer && transport.Am? ==> registerOk)
            && Succeeds(KindOf(transport, !isServer), iovCnt, worlds[n])
            && (isServer ==> closed)
    decreases n - k
  {
    if k < n {
      ResultIff(KindOf(transport, isServer), iovCnt, worlds[k]);
      WorkSucceedsIff(transport, isServer, n, iovCnt, worlds, registerOk, closed, k + 1);
    } else {
      ResultIff(KindOf(transport, !isServer), iovCnt, worlds[n]);
    }
  }

  /** It fails exactly if the first iteration that does not succeed fails, or all succeed and then the
      registration or the FIN fails. */
  lemma {:induction false} WorkFailsIff(transport: Transport, isServer: bool, n: nat, iovCnt: nat,
                                        worlds: seq<World>, registerOk: bool, closed: bool, k: nat)
    requires k <= n < |worlds|
    ensures var kind := KindOf(transport, isServer);
            ExpectedWork(transport, isServer, n, iovCnt, worlds, registerOk, closed, k).Failure?
            <==> || (exists j :: k <= j < n && Fails(kind, iovCnt, worlds[j]) && GoThrough(kind, iovCnt, worlds, k, j))
                 || (GoThrough(kind, iovCnt, worlds, k, n)
                     && ((!isServer && transport.Am? && !registerOk)
                         || Fails(KindOf(transport, !isServer), iovCnt, worlds[n])))
    decreases n - k
  {
    var kind := KindOf(transport, isServer);
    if k == n {
      ResultIff(KindOf(transport, !isServer), iovCnt, worlds[n]);
    } else {
      ResultIff(kind, iovCnt, worlds[k]);
      WorkFailsIff(transport, isServer, n, iovCnt, worlds, registerOk, closed, k + 1);
      if Fails(kind, iovCnt, worlds[k]) {
        assert GoThrough(kind, iovCnt, worlds, k, k);
      }
      if j :| k + 1 <= j < n && Fails(kind, iovCnt, worlds[j]) && GoThrough(kind, iovCnt, worlds, k + 1, j) {
        assert Succeeds(kind, iovCnt, worlds[k]) ==> GoThrough(kind, iovCnt, worlds, k, j);
      }
    }
  }

  /** In every other case it waits: at the first iteration that does, for the FIN, or for the peer to close. */
  lemma {:induction false} WorkWaitsIff(transport: Transport, isServer: bool, n: nat, iovCnt: nat,
                                        worlds: seq<World>, registerOk: bool, closed: bool, k: nat)
    requires k <= n < |worlds|
    ensures var kind := KindOf(transport, isServer);
            ExpectedWork(transport, isServer, n, iovCnt, worlds, registerOk, closed, k).StillWaiting?
            <==> || (exists j :: k <= j < n && Waits(kind, iovCnt, worlds[j]) && GoThrough(kind, iovCnt, worlds, k, j))
                 || (GoThrough(kind, iovCnt, worlds, k, n) && (!isServer && transport.Am? ==> registerOk)
                     && (Waits(KindOf(transport, !isServer), iovCnt, worlds[n])
                         || (Succeeds(KindOf(transport, !isServer), iovCnt, worlds[n]) && isServer && !closed)))
    decreases n - k
  {
    var kind := KindOf(transport, isServer);
    if k == n {
      ResultIff(KindOf(transport, !isServer), iovCnt, worlds[n]);
    } else {
      ResultIff(kind, iovCnt, worlds[k]);
      WorkWaitsIff(transport, isServer, n, iovCnt, worlds, registerOk, closed, k + 1);
      if Waits(kind, iovCnt, worlds[k]) {
        assert GoThrough(kind, iovCnt, worlds, k, k);
      }
      if j :| k + 1 <= j < n && Waits(kind, iovCnt, worlds[j]) && GoThrough(kind, iovCnt, worlds, k + 1, j) {
        assert Succeeds(kind, iovCnt, worlds[k]) ==> GoThrough(kind, iovCnt, worlds, k, j);
      }
    }
  }
}
