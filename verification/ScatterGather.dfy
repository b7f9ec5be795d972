/** The two ends of a message: the test string a sender fills its buffers with, the descriptor it posts
    for them, and the loop that spreads an eagerly delivered message over the receiver's buffers. */
module ScatterGather {
  import opened Common

  /** The bytes of a list of buffers, one after the other. */
  function Concat(bufs: seq<Bytes>): Bytes {
    if bufs == [] then [] else bufs[0] + Concat(bufs[1..])
  }

  lemma {:induction false} ConcatSnoc(bufs: seq<Bytes>, b: Bytes)
    ensures Concat(bufs + [b]) == Concat(bufs) + b
  {
    if bufs == [] {
      assert bufs + [b] == [b];
      assert Concat([b]) == b + Concat([]);
    } else {
      assert (bufs + [b])[1..] == bufs[1..] + [b];
      ConcatSnoc(bufs[1..], b);
    }
  }

  /** Lists of buffers of the same shape are told apart by their bytes. */
  lemma {:induction false} ConcatInjective(a: seq<Bytes>, b: seq<Bytes>)
    requires |a| == |b| && forall k | 0 <= k < |a| :: |a[k]| == |b[k]|
    requires Concat(a) == Concat(b)
    ensures a == b
  {
    if a != [] {
      var x, y := Concat(a[1..]), Concat(b[1..]);
      assert a[0] == (a[0] + x)[..|a[0]|] == (b[0] + y)[..|b[0]|] == b[0];
      assert x == (a[0] + x)[|a[0]|..] == (b[0] + y)[|b[0]|..] == y;
      ConcatInjective(a[1..], b[1..]);
      assert a == [a[0]] + a[1..] && b == [b[0]] + b[1..];
    }
  }

  lemma {:induction false} ConcatLength(bufs: seq<Bytes>, len: nat)
    requires forall k | 0 <= k < |bufs| :: |bufs[k]| == len
    ensures |Concat(bufs)| == |bufs| * len
  {
    if bufs != [] {
      ConcatLength(bufs[1..], len);
      assert |bufs| * len == len + (|bufs| - 1) * len;
    }
  }

  // ---------------------------------------------------------------- the posted descriptor

  /** The UCX datatype of an operation: `msg` as `length` contiguous bytes, or `msg` as a list of `count`
      buffers. `heap` is what the buffers hold, in the order of the iov array. */
  datatype Descriptor = Contiguous(first: nat, length: nat) | IovList(count: nat)

  function Describe(heap: seq<Bytes>): Descriptor
    requires |heap| > 0
  {
    if |heap| == 1 then Contiguous(0, |heap[0]|) else IovList(|heap|)
  }

  function Size(bufs: seq<Bytes>): nat {
    if bufs == [] then 0 else |bufs[0]| + Size(bufs[1..])
  }

  /** Where position `p` of a message lies: the buffer, and the index in it. */
  function Locate(bufs: seq<Bytes>, p: nat): (at: (nat, nat))
    requires p < Size(bufs)
    ensures at.0 < |bufs| && at.1 < |bufs[at.0]| && Size(bufs[..at.0]) + at.1 == p
  {
    if p < |bufs[0]| then
      (0, p)
    else
      var rest := Locate(bufs[1..], p - |bufs[0]|);
      assert bufs[..rest.0 + 1][1..] == bufs[1..][..rest.0];
      (rest.0 + 1, rest.1)
  }

  /** The bytes UCX reads through a descriptor, each looked up at its own place. */
  function Denote(d: Descriptor, heap: seq<Bytes>): Bytes {
    match d
    case Contiguous(first, length) =>
      if first < |heap| && length <= |heap[first]| then heap[first][..length] else []
    case IovList(count) =>
      if count <= |heap| then
        seq(Size(heap[..count]), p requires 0 <= p < Size(heap[..count]) =>
          var at := Locate(heap[..count], p); heap[at.0][at.1])
      else
        []
  }

  lemma {:induction false} ConcatSize(bufs: seq<Bytes>)
    ensures |Concat(bufs)| == Size(bufs)
  {
    if bufs != [] {
      ConcatSize(bufs[1..]);
    }
  }

  lemma {:induction false} ConcatAt(bufs: seq<Bytes>, p: nat)
    requires p < Size(bufs)
    ensures |Concat(bufs)| == Size(bufs)
    ensures Concat(bufs)[p] == bufs[Locate(bufs, p).0][Locate(bufs, p).1]
  {
    ConcatSize(bufs);
    if p >= |bufs[0]| {
      ConcatAt(bufs[1..], p - |bufs[0]|);
    }
  }

  /** Both kinds of descriptor denote the concatenation of the buffers. */
  lemma DescriptorDenotesConcat(heap: seq<Bytes>)
    requires |heap| > 0
    ensures Denote(Describe(heap), heap) == Concat(heap)
    ensures Describe(heap).Contiguous? <==> |heap| == 1
  {
    if |heap| == 1 {
      assert heap[1..] == [];
    } else {
      assert heap[..|heap|] == heap;
      ConcatSize(heap);
      forall p | 0 <= p < Size(heap) ensures Denote(Describe(heap), heap)[p] == Concat(heap)[p] {
        ConcatAt(heap, p);
      }
    }
  }

  // ---------------------------------------------------------------- the eager copy loop

  function Contents(iov: seq<array<Byte>>): (s: seq<Bytes>)
    reads iov
    ensures |s| == |iov| && forall k | 0 <= k < |iov| :: s[k] == iov[k][..]
  {
    seq(|iov|, k requires 0 <= k < |iov| reads iov => iov[k][..])
  }

  /** The lengths the loop steps over. */
  function TotalLength(iov: seq<array<Byte>>): nat {
    if iov == [] then 0 else TotalLength(iov[..|iov| - 1]) + iov[|iov| - 1].Length
  }

  lemma {:induction false} TotalLengthPrefix(iov: seq<array<Byte>>, k: nat)
    requires k < |iov|
    ensures TotalLength(iov[..k]) + iov[k].Length == TotalLength(iov[..k + 1]) <= TotalLength(iov)
    decreases |iov|
  {
    assert iov[..k + 1][..k] == iov[..k];
    if k + 1 < |iov| {
      TotalLengthPrefix(iov[..|iov| - 1], k);
      assert iov[..|iov| - 1][..k] == iov[..k] && iov[..|iov| - 1][..k + 1] == iov[..k + 1];
    } else {
      assert iov[..k + 1] == iov;
    }
  }

  lemma {:induction false} TotalLengthUniform(iov: seq<array<Byte>>, len: nat)
    requires forall k | 0 <= k < |iov| :: iov[k].Length == len
    ensures TotalLength(iov) == |iov| * len
  {
    if iov != [] {
      TotalLengthUniform(iov[..|iov| - 1], len);
      assert |iov| * len == (|iov| - 1) * len + len;
    }
  }

  method MemCopy(dst: array<Byte>, data: Bytes, offset: nat)
    requires offset + dst.Length <= |data|
    modifies dst
    ensures dst[..] == data[offset..offset + dst.Length]
  {
    for j := 0 to dst.Length
      invariant dst[..j] == data[offset..offset + j]
    {
      dst[j] := data[offset + j];
      assert dst[..j + 1] == dst[..j] + [data[offset + j]];
    }
    assert dst[..] == dst[..dst.Length];
  }

  /** Spreads `data` over the buffers: the copy stays in bounds, ends at the end of the message, and the
      buffers then hold the message. */
  method Scatter(data: Bytes, iov: seq<array<Byte>>) returns (offset: nat)
    requires forall j, k | 0 <= j < k < |iov| :: iov[j] != iov[k]
    requires |data| == TotalLength(iov)
    modifies iov
    ensures offset == |data| && Concat(Contents(iov)) == data
  {
    offset := 0;
    ghost var done: seq<Bytes> := [];
    for idx := 0 to |iov|
      invariant offset == TotalLength(iov[..idx]) && offset <= |data|
      invariant |done| == idx && forall k | 0 <= k < idx :: done[k] == iov[k][..]
      invariant Concat(done) == data[..offset]
    {
      TotalLengthPrefix(iov, idx);
      assert iov[..|iov|] == iov;
      MemCopy(iov[idx], data, offset);
      ConcatSnoc(done, iov[idx][..]);
      done := done + [iov[idx][..]];
      offset := offset + iov[idx].Length;
    }
    assert iov[..|iov|] == iov;
    assert Contents(iov) == done;
  }

  /** Scatter undoes gather: the receiver of an eager message ends with the sender's buffers, each in its
      place; a message of another length than iov_cnt * length is dropped and changes nothing. */
  method DeliverEager(data: Bytes, iov: seq<array<Byte>>, len: nat, ghost sent: seq<Bytes>) returns (taken: bool)
    requires forall j, k | 0 <= j < k < |iov| :: iov[j] != iov[k]
    requires forall k | 0 <= k < |iov| :: iov[k].Length == len
    requires data == Concat(sent)
    modifies iov
    ensures taken <==> |data| == |iov| * len
    ensures !taken ==> Contents(iov) == old(Contents(iov))
    ensures |sent| == |iov| && (forall k | 0 <= k < |sent| :: |sent[k]| == len) ==> taken && Contents(iov) == sent
  {
    ghost var shaped := |sent| == |iov| && forall k | 0 <= k < |sent| :: |sent[k]| == len;
    if shaped {
      ConcatLength(sent, len);
    }
    if |data| != |iov| * len {
      return false;
    }
    TotalLengthUniform(iov, len);
    var offset := Scatter(data, iov);
    if shaped {
      ConcatInjective(Contents(iov), sent);
    }
    return true;
  }

  // ---------------------------------------------------------------- the test string

  /** 'A' to 'Z' over and over, ended by a zero byte. */
  function TestString(size: nat): Bytes {
    if size == 0 then [] else seq(size - 1, i requires 0 <= i => ((65 + i % 26) as Byte)) + [0]
  }

  /** The letters run through the alphabet again and again, from 'A', and a zero byte ends them. */
  lemma TestStringLetters(size: nat)
    ensures var t := TestString(size);
            && |t| == size && (size > 0 ==> t[size - 1] == 0) && (size > 1 ==> t[0] as int == 'A' as int)
            && (forall i | 0 <= i < size - 1 :: 'A' as int <= t[i] as int <= 'Z' as int)
            && (forall i | 0 <= i && i + 1 < size - 1 ::
                  t[i + 1] as int == if t[i] as int == 'Z' as int then 'A' as int else t[i] as int + 1)
  {
  }

  method GenerateTestString(str: array<Byte>, callocOk: bool) returns (ret: int)
    modifies str
    ensures ret == if callocOk then 0 else -1
    ensures str[..] == if callocOk then TestString(str.Length) else old(str[..])
  {
    if !callocOk {
      return -1;
    }
    var size := str.Length;
    var tmp := new Byte[size](_ => 0);
    var i := 0;
    while i < size - 1
      invariant 0 <= i <= size && (size > 0 ==> i < size)
      invariant forall k | 0 <= k < i :: tmp[k] == (65 + k % 26) as Byte
      invariant forall k | i <= k < size :: tmp[k] == 0
    {
      tmp[i] := (65 + i % 26) as Byte;
      i := i + 1;
    }
    assert tmp[..] == TestString(size);
    MemCopy(str, tmp[..], 0);
    return 0;
  }
}
