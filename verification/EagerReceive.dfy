/** The receiving side of the active-message exchange as the code has it: the process-wide descriptor, the
    AM callback, and the loop that counts `last` up to `complete`, under any batching of callbacks into
    progress calls. */
module EagerReceive {
  import opened Common

  /** What arrives for one AM: its length in bytes, its content, and whether it is a rendezvous request
      (then `content` stands for the UCX descriptor). */
  datatype Message<T> = Message(length: nat, content: T, rndv: bool)

  datatype CallbackStatus = UcsOk | UcsInProgress

  /** The messages of a batch that pass the length check. */
  function Counted<T>(batch: seq<Message<T>>, expected: nat): seq<Message<T>> {
    if batch == [] then []
    else
      var rest, m := Counted(batch[..|batch| - 1], expected), batch[|batch| - 1];
      if m.length == expected then rest + [m] else rest
  }

  function CountedAll<T>(batches: seq<seq<Message<T>>>, expected: nat): (r: seq<seq<Message<T>>>)
    ensures |r| == |batches| && forall b | 0 <= b < |batches| :: r[b] == Counted(batches[b], expected)
  {
    seq(|batches|, b requires 0 <= b < |batches| => Counted(batches[b], expected))
  }

  /** The content of the latest message of one kind, or `before` if there is none. */
  function Latest<T>(batch: seq<Message<T>>, rndv: bool, before: Option<T>): Option<T> {
    if batch == [] then before
    else if batch[|batch| - 1].rndv == rndv then Some(batch[|batch| - 1].content)
    else Latest(batch[..|batch| - 1], rndv, before)
  }

  lemma CountedStep<T>(batch: seq<Message<T>>, j: nat, expected: nat)
    requires j < |batch|
    ensures Counted(batch[..j + 1], expected)
         == Counted(batch[..j], expected) + if batch[j].length == expected then [batch[j]] else []
  {
    assert batch[..j + 1][..j] == batch[..j];
  }

  lemma LatestStep<T>(ms: seq<Message<T>>, m: Message<T>, rndv: bool, before: Option<T>)
    ensures Latest(ms + [m], rndv, before) == if m.rndv == rndv then Some(m.content) else Latest(ms, rndv, before)
  {
    assert (ms + [m])[..|ms|] == ms;
  }

  function Flatten<T>(batches: seq<seq<T>>): seq<T> {
    if batches == [] then [] else Flatten(batches[..|batches| - 1]) + batches[|batches| - 1]
  }

  lemma {:induction false} FlattenPrefix<T>(batches: seq<seq<T>>, k: nat)
    requires k < |batches|
    ensures Flatten(batches[..k + 1]) == Flatten(batches[..k]) + batches[k]
    ensures Flatten(batches[..k + 1]) <= Flatten(batches)
    decreases |batches|
  {
    assert batches[..k + 1][..k] == batches[..k];
    if k + 1 < |batches| {
      FlattenPrefix(batches[..|batches| - 1], k);
      assert batches[..|batches| - 1][..k + 1] == batches[..k + 1] && batches[..|batches| - 1][..k] == batches[..k];
    } else {
      assert batches[..k + 1] == batches;
    }
  }

  lemma {:induction false} FlattenMonotone<T>(batches: seq<seq<T>>, k: nat)
    requires k <= |batches|
    ensures Flatten(batches[..k]) <= Flatten(batches)
    ensures Flatten(batches[..k]) == Flatten(batches) ==> forall j | k <= j < |batches| :: batches[j] == []
    decreases |batches| - k
  {
    hide Flatten;
    if k == |batches| {
      assert batches[..k] == batches;
    } else {
      FlattenPrefix(batches, k);
      FlattenMonotone(batches, k + 1);
      if Flatten(batches[..k]) == Flatten(batches) {
        assert |Flatten(batches[..k])| + |batches[k]| == |Flatten(batches[..k + 1])| <= |Flatten(batches)|;
      }
    }
  }

  /** Progress calls that count nothing, and one more. */
  lemma {:induction false} FlattenSkip<T>(batches: seq<seq<T>>, from: nat, b: nat)
    requires from < b <= |batches| && forall j | from <= j < b - 1 :: batches[j] == []
    ensures Flatten(batches[..b]) == Flatten(batches[..from]) + batches[b - 1]
    decreases b
  {
    FlattenPrefix(batches, b - 1);
    if from < b - 1 {
      FlattenSkip(batches, from, b - 1);
    }
  }

  /** Where the wait leaves the schedule: after the first progress call that counts a message, if any. */
  lemma AfterWait<T>(counted: seq<seq<T>>, from: nat, b: nat, arrived: bool)
    requires from <= b <= |counted|
    requires forall j | from <= j < b - 1 :: counted[j] == []
    requires b == from || arrived || counted[b - 1] == []
    requires arrived || b == |counted|
    ensures Flatten(counted[..b]) <= Flatten(counted)
    ensures b > from ==> Flatten(counted[..b]) == Flatten(counted[..from]) + counted[b - 1]
    ensures !arrived ==> Flatten(counted) == Flatten(counted[..from])
  {
    FlattenMonotone(counted, b);
    if b > from {
      FlattenSkip(counted, from, b);
    }
    assert counted[..|counted|] == counted;
  }

  /** The iterations so far against the first b progress calls. `ahead` says that a message has been counted
      that no iteration has taken. If no progress call has delivered two messages, every iteration had its
      own; otherwise a message is ahead or an iteration has gone wrong. */
  ghost predicate Verdict<T>(counted: seq<seq<Message<T>>>, b: nat, finals: seq<Option<T>>, ahead: bool)
    requires b <= |counted| && |finals| <= |Flatten(counted)|
  {
    && ((forall j | 0 <= j < b :: |counted[j]| <= 1) ==>
          !ahead && forall k | 0 <= k < |finals| :: finals[k] == Some(Flatten(counted)[k].content))
    && ((exists j :: 0 <= j < b && |counted[j]| > 1) ==>
          ahead || exists k :: 0 <= k < |finals| && finals[k] != Some(Flatten(counted)[k].content))
  }

  /** An iteration that found a message ahead finalises buffers that nothing was written to. */
  lemma TakesAhead<T>(counted: seq<seq<Message<T>>>, b: nat, finals: seq<Option<T>>, ahead: bool)
    requires b <= |counted| && |finals| < |Flatten(counted)|
    requires Verdict(counted, b, finals, true)
    ensures Verdict(counted, b, finals + [None], ahead)
  {
    assert (finals + [None])[|finals|] == None;
  }

  /** One that waited finalises the last message of the progress call that ended its wait. */
  lemma TakesLatest<T>(counted: seq<seq<Message<T>>>, from: nat, b: nat, finals: seq<Option<T>>, f: Option<T>)
    requires from < b <= |counted| && |finals| < |Flatten(counted)|
    requires Verdict(counted, from, finals, false) && |Flatten(counted[..from])| == |finals|
    requires forall j | from <= j < b - 1 :: counted[j] == []
    requires counted[b - 1] != [] && f == Some(counted[b - 1][|counted[b - 1]| - 1].content)
    ensures Verdict(counted, b, finals + [f], |counted[b - 1]| > 1)
  {
    AfterWait(counted, from, b, true);
    var n := |finals|;
    assert Flatten(counted)[n] == counted[b - 1][0];
    assert (finals + [f])[n] == f;
    if exists j :: 0 <= j < b && |counted[j]| > 1 {
      if |counted[b - 1]| == 1 {
        var k :| 0 <= k < n && finals[k] != Some(Flatten(counted)[k].content);
        assert (finals + [f])[k] == finals[k];
      }
    }
  }

  lemma EagerBatch<T>(counted: seq<seq<Message<T>>>, b: nat)
    requires b < |counted| && forall m | m in Flatten(counted) :: !m.rndv
    ensures forall i | 0 <= i < |counted[b]| :: !counted[b][i].rndv
  {
    FlattenPrefix(counted, b);
    var before, upTo := Flatten(counted[..b]), Flatten(counted[..b + 1]);
    forall i | 0 <= i < |counted[b]| ensures !counted[b][i].rndv {
      assert counted[b][i] == upTo[|before| + i] == Flatten(counted)[|before| + i];
    }
  }

  /** One iteration: the wait ended after b progress calls, and f is what was finalised. */
  lemma Iteration<T>(counted: seq<seq<Message<T>>>, from: nat, b: nat, arrived: bool, finals: seq<Option<T>>,
                     f: Option<T>)
    requires from <= b <= |counted| && |finals| < |Flatten(counted)|
    requires |finals| <= |Flatten(counted[..from])|
    requires Verdict(counted, from, finals, |Flatten(counted[..from])| > |finals|)
    requires |Flatten(counted[..from])| > |finals| ==> arrived && b == from && f == None
    requires |Flatten(counted[..from])| == |finals| ==>
               && (forall j | from <= j < b - 1 :: counted[j] == [])
               && if arrived then
                    b > from && counted[b - 1] != [] && f == Some(counted[b - 1][|counted[b - 1]| - 1].content)
                  else
                    b == |counted| && (b == from || counted[b - 1] == [])
    ensures arrived && Verdict(counted, b, finals + [f], |Flatten(counted[..b])| > |finals| + 1)
  {
    if |Flatten(counted[..from])| > |finals| {
      TakesAhead(counted, b, finals, |Flatten(counted[..b])| > |finals| + 1);
    } else {
      AfterWait(counted, from, b, arrived);
      TakesLatest(counted, from, b, finals, f);
    }
  }

  class AmReceiver<T(==)> {
    const expected: nat          // iov_cnt * test_string_length
    var complete: nat
    var last: nat
    var isRndv: bool
    var desc: Option<T>
    var buffer: Option<T>        // what the buffers behind recv_buf hold; None before anything was written

    constructor (expected: nat)
      ensures this.expected == expected && complete == last == 0 && !isRndv && desc.None? && buffer.None?
    {
      this.expected := expected;
      complete, last, isRndv, desc, buffer := 0, 0, false, None, None;
    }

    /** A message of the wrong length is dropped without a trace; otherwise it is counted, and either its
        descriptor is kept or its data is copied to the current buffers. */
    method AmDataCb(m: Message<T>) returns (status: CallbackStatus)
      modifies this`complete, this`isRndv, this`desc, this`buffer
      ensures m.length != expected ==> unchanged(this) && status.UcsOk?
      ensures m.length == expected ==> complete == old(complete) + 1 && isRndv == m.rndv
      ensures m.length == expected && m.rndv ==>
                desc == Some(m.content) && buffer == old(buffer) && status.UcsInProgress?
      ensures m.length == expected && !m.rndv ==>
                desc == old(desc) && buffer == Some(m.content) && status.UcsOk?
    {
      if m.length != expected {
        return UcsOk;
      }
      complete := complete + 1;
      if m.rndv {
        isRndv := true;
        desc := Some(m.content);
        return UcsInProgress;
      }
      isRndv := false;
      buffer := Some(m.content);
      return UcsOk;
    }

    /** One progress call; it runs every callback of its batch. */
    method Progress(batch: seq<Message<T>>)
      modifies this`complete, this`isRndv, this`desc, this`buffer
      ensures var ms := Counted(batch, expected);
        && complete == old(complete) + |ms|
        && isRndv == (if ms == [] then old(isRndv) else ms[|ms| - 1].rndv)
        && desc == Latest(ms, true, old(desc)) && buffer == Latest(ms, false, old(buffer))
    {
      assert batch[..|batch|] == batch;
      ghost var ms := [];
      for j := 0 to |batch|
        invariant ms == Counted(batch[..j], expected)
        invariant complete == old(complete) + |ms|
        invariant isRndv == if ms == [] then old(isRndv) else ms[|ms| - 1].rndv
        invariant desc == Latest(ms, true, old(desc)) && buffer == Latest(ms, false, old(buffer))
      {
        CountedStep(batch, j, expected);
        LatestStep(ms, batch[j], true, old(desc));
        LatestStep(ms, batch[j], false, old(buffer));
        var status := AmDataCb(batch[j]);
        if batch[j].length == expected {
          ms := ms + [batch[j]];
        }
      }
    }

    /** while (last == complete) progress: returns at once if a message is waiting, and otherwise at the
        end of the first progress call that counts one. If the schedule has none it is still waiting. */
    method WaitForMessage(from: nat, batches: seq<seq<Message<T>>>) returns (b: nat, arrived: bool)
      requires from <= |batches| && last <= complete
      modifies this`complete, this`isRndv, this`desc, this`buffer
      ensures from <= b <= |batches| && last <= complete && (arrived <==> last < complete)
      ensures old(complete) > last ==> b == from && unchanged(this)
      ensures !arrived ==> b == |batches| && unchanged(this)
                           && forall j | from <= j < b :: Counted(batches[j], expected) == []
      ensures arrived && old(complete) == last ==>
                && b > from && (forall j | from <= j < b - 1 :: Counted(batches[j], expected) == [])
                && var ms := Counted(batches[b - 1], expected);
                   ms != [] && complete == last + |ms| && isRndv == ms[|ms| - 1].rndv
                   && desc == Latest(ms, true, old(desc)) && buffer == Latest(ms, false, old(buffer))
    {
      b := from;
      while last == complete && b < |batches|
        invariant from <= b <= |batches| && last <= complete
        invariant last == complete ==>
                    unchanged(this) && forall j | from <= j < b :: Counted(batches[j], expected) == []
        invariant last < complete && b == from ==> unchanged(this)
        invariant last < complete && b > from ==>
          && old(complete) == last && (forall j | from <= j < b - 1 :: Counted(batches[j], expected) == [])
          && var ms := Counted(batches[b - 1], expected);
             ms != [] && complete == last + |ms| && isRndv == ms[|ms| - 1].rndv
             && desc == Latest(ms, true, old(desc)) && buffer == Latest(ms, false, old(buffer))
      {
        Progress(batches[b]);
        b := b + 1;
      }
      arrived := last < complete;
    }

    /** One iteration: new buffers, the wait, and what is finalised. `counted` is the schedule without the
        messages that are dropped, `finals` what the iterations before have finalised. */
    method ReceiveOne(from: nat, batches: seq<seq<Message<T>>>, ghost counted: seq<seq<Message<T>>>,
                      ghost finals: seq<Option<T>>)
      returns (b: nat, f: Option<T>)
      requires from <= |batches| && counted == CountedAll(batches, expected) && |finals| < |Flatten(counted)|
      requires forall m | m in Flatten(counted) :: !m.rndv
      requires last <= complete && complete - last == |Flatten(counted[..from])| - |finals|
      requires Verdict(counted, from, finals, complete > last) && (complete > last ==> !isRndv)
      modifies this
      ensures b <= |batches| && last == old(last) + 1 <= complete && !isRndv
      ensures complete - last == |Flatten(counted[..b])| - |finals| - 1
      ensures |Flatten(counted[..b])| <= |Flatten(counted)|
      ensures Verdict(counted, b, finals + [f], complete > last)
    {
      hide Flatten, Verdict, Counted;
      FlattenMonotone(counted, from);
      buffer := None;
      var arrived;
      b, arrived := WaitForMessage(from, batches);
      AfterWait(counted, from, b, arrived);
      if b > from {
        EagerBatch(counted, b - 1);
      }
      Iteration(counted, from, b, arrived, finals, buffer);
      last := last + 1;
      assert !isRndv;  // so the request is NULL and the buffers are finalised as they are
      f := buffer;
    }

    /** n iterations of the receiver against eager messages that arrive in `batches`, one batch for each
        progress call, with n messages of the right length among them. `finals[k]` is what iteration k
        finalises. Every iteration finalises its own message if and only if no progress call delivers two
        that count. */
    method ReceiveAll(n: nat, batches: seq<seq<Message<T>>>) returns (finals: seq<Option<T>>)
      requires complete == last && |Flatten(CountedAll(batches, expected))| == n
      requires forall m | m in Flatten(CountedAll(batches, expected)) :: !m.rndv
      modifies this
      ensures |finals| == n
      ensures last == complete == old(complete) + n
      ensures (forall k | 0 <= k < n :: finals[k] == Some(Flatten(CountedAll(batches, expected))[k].content))
         <==> (forall b | 0 <= b < |batches| :: |Counted(batches[b], expected)| <= 1)
    {
      ghost var counted: seq<seq<Message<T>>> := CountedAll(batches, expected);
      ghost var base := last;
      finals := [];
      var b: nat := 0;
      assert counted[..|batches|] == counted;
      while |finals| < n
        invariant b <= |batches| && |finals| <= n
        invariant last == base + |finals| && complete == base + |Flatten(counted[..b])|
        invariant last <= complete <= base + n && (complete > last ==> !isRndv)
        invariant Verdict(counted, b, finals, complete > last)
        decreases n - |finals|
      {
        var f;
        b, f := ReceiveOne(b, batches, counted, finals);
        finals := finals + [f];
      }
      FlattenMonotone(counted, b);
    }
  }
}
