/** Queues of write buffers, as the client and the relay keep them. */
module WriteQueues {
  import opened IoLogs

  /** A connection_buffer on the write or free list; its length is |data|. */
  datatype WriteBuf = WriteBuf(size: nat, data: seq<Byte>, off: nat)

  predicate Queued(b: WriteBuf) {
    b.off < |b.data| <= b.size
  }

  predicate Free(b: WriteBuf) {
    b.off == 0 && b.data == []
  }

  /** Bytes still to be written, in buffer order. */
  function Pending(bufs: seq<WriteBuf>): seq<Byte>
    requires forall i :: 0 <= i < |bufs| ==> Queued(bufs[i])
  {
    if bufs == [] then [] else assert Queued(bufs[0]); bufs[0].data[bufs[0].off..] + Pending(bufs[1..])
  }

  /** The queue after n bytes of its first buffer have been written. */
  function Advanced(bufs: seq<WriteBuf>, n: nat): seq<WriteBuf>
    requires bufs != [] && n <= |bufs[0].data| - bufs[0].off
  {
    if bufs[0].off + n == |bufs[0].data| then bufs[1..] else [bufs[0].(off := bufs[0].off + n)] + bufs[1..]
  }

  lemma {:induction false} PendingFirst(b: WriteBuf, rest: seq<WriteBuf>)
    requires Queued(b) && forall i :: 0 <= i < |rest| ==> Queued(rest[i])
    ensures forall i :: 0 <= i < |[b] + rest| ==> Queued(([b] + rest)[i])
    ensures Pending([b] + rest) == b.data[b.off..] + Pending(rest)
  {
    assert ([b] + rest)[1..] == rest;
  }

  /** Writing bytes of the first buffer only moves them out of the queue. */
  lemma {:induction false} AdvancedPending(bufs: seq<WriteBuf>, n: nat)
    requires bufs != [] && (forall i :: 0 <= i < |bufs| ==> Queued(bufs[i])) && n <= |bufs[0].data| - bufs[0].off
    ensures forall i :: 0 <= i < |Advanced(bufs, n)| ==> Queued(Advanced(bufs, n)[i])
    ensures Pending(bufs) == bufs[0].data[bufs[0].off..bufs[0].off + n] + Pending(Advanced(bufs, n))
    ensures Advanced(bufs, n) == [] <==> |Pending(Advanced(bufs, n))| == 0
  {
    var b, rest := bufs[0], bufs[1..];
    var k := b.off + n;
    if k == |b.data| {
      assert b.data[b.off..k] == b.data[b.off..];
      assert rest != [] ==> |rest[0].data[rest[0].off..]| > 0;
    } else {
      PendingFirst(b.(off := k), rest);
      hide Pending;
      Associate(b.data, b.off, k, Pending(rest));
    }
  }

  lemma {:induction false} Associate(s: seq<Byte>, i: nat, j: nat, t: seq<Byte>)
    requires i <= j <= |s|
    ensures s[i..] + t == s[i..j] + (s[j..] + t)
  {
    assert s[i..] == s[i..j] + s[j..];
  }

  /** A buffer inserted at the tail is written last. */
  lemma {:induction false} PendingAppend(bufs: seq<WriteBuf>, b: WriteBuf)
    requires (forall i :: 0 <= i < |bufs| ==> Queued(bufs[i])) && Queued(b)
    ensures forall i :: 0 <= i < |bufs + [b]| ==> Queued((bufs + [b])[i])
    ensures Pending(bufs + [b]) == Pending(bufs) + b.data[b.off..]
  {
    if bufs == [] {
      PendingFirst(b, []);
      assert bufs + [b] == [b] + [];
    } else {
      PendingAppend(bufs[1..], b);
      PendingFirst(bufs[0], bufs[1..] + [b]);
      assert bufs + [b] == [bufs[0]] + (bufs[1..] + [b]);
      Associate(bufs[0].data[bufs[0].off..] + Pending(bufs[1..]), 0, 0, b.data[b.off..]);
    }
  }
}
