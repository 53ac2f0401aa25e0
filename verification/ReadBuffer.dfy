/** The receive side of a connection: a buffer that grows on demand and the
    loop that takes complete messages out of it.  The same loop serves the
    server's clients, its relay and the client. */
module ReadBuffers {
  import opened IoLogs
  import opened Framing
  import opened Words

  function Exp2(k: nat): (p: nat)
    ensures p > 0
  {
    if k == 0 then 1 else 2 * Exp2(k - 1)
  }

  /** Exponent of the smallest power of two that holds n, at least k. */
  function RoundupExponent(n: nat, k: nat): (e: nat)
    ensures k <= e && n <= Exp2(e)
    ensures e > k ==> Exp2(e - 1) < n
    decreases n - Exp2(k)
  {
    if n <= Exp2(k) then k else RoundupExponent(n, k + 1)
  }

  /** `sudo_pow2_roundup`, which never returns less than 64. */
  function Pow2Roundup(n: nat): (p: nat)
    ensures n <= p && 64 <= p
  {
    assert Exp2(2) == 4 && Exp2(4) == 16 && Exp2(6) == 64;
    Exp2Monotone(6, RoundupExponent(n, 6));
    Exp2(RoundupExponent(n, 6))
  }

  lemma {:induction false} Exp2Monotone(i: nat, j: nat)
    requires i <= j
    ensures Exp2(i) <= Exp2(j)
    decreases j
  {
    if i < j {
      Exp2Monotone(i, j - 1);
    }
  }

  const READ_BUFFER_MAX := 4 * 1024 * 1024

  /** Room for the largest message and its length word rounds up to 4 MiB. */
  lemma {:induction false} RoundupBound(n: nat)
    requires n <= MESSAGE_SIZE_MAX + 4
    ensures Pow2Roundup(n) <= READ_BUFFER_MAX
  {
    assert Exp2(22) == READ_BUFFER_MAX by {
      assert Exp2(4) == 16 && Exp2(8) == 256 && Exp2(12) == 4096;
      assert Exp2(16) == 65536 && Exp2(20) == 1048576;
    }
    var e := RoundupExponent(n, 6);
    if e > 22 {
      Exp2Monotone(22, e - 1);
    }
    Exp2Monotone(e, 22);
  }

  datatype Outcome = Continue | TooLarge | Refused

  /** What the buffer holds after a callback that saw the bytes s.  When
      messages were delivered and fewer than four bytes remain, the remaining
      bytes are not moved to the front: the buffer's first bytes stay. */
  function Retained(s: seq<Byte>): seq<Byte> {
    var p := Parse(s);
    ParseSplits(s);
    if p.msgs != [] && |p.rest| < 4 then s[..|p.rest|] else p.rest
  }

  /** After taking `handled` out of s, parsing goes on at off. */
  ghost predicate Progress(s: seq<Byte>, off: nat, handled: seq<Message>) {
    && off <= |s|
    && (off == 0 <==> handled == [])
    && var q := Parse(s[off..]); Parse(s) == Parsed(handled + q.msgs, q.rest, q.tooLarge)
  }

  lemma {:induction false} ProgressStart(s: seq<Byte>)
    ensures Progress(s, 0, [])
  {
    assert s[0..] == s && [] + Parse(s).msgs == Parse(s).msgs;
  }

  lemma {:induction false} ProgressStep(s: seq<Byte>, off: nat, handled: seq<Message>)
    requires Progress(s, off, handled) && Complete(s[off..])
    ensures var n := WireLength(s[off..]);
            Progress(s, off + 4 + n, handled + [s[off + 4..off + 4 + n]])
    ensures |handled| < |Parse(s).msgs| && handled == Parse(s).msgs[..|handled|]
  {
    hide WireLength;
    var t := s[off..];
    var n := WireLength(t);
    assert t[4 + n..] == s[off + 4 + n..] && t[4..4 + n] == s[off + 4..off + 4 + n];
    assert handled + ([t[4..4 + n]] + Parse(t[4 + n..]).msgs) == (handled + [t[4..4 + n]]) + Parse(t[4 + n..]).msgs;
  }

  lemma {:induction false} ProgressDone(s: seq<Byte>, off: nat, handled: seq<Message>)
    requires Progress(s, off, handled) && !Complete(s[off..])
    ensures var t := s[off..]; Parse(s) == Parsed(handled, t, |t| >= 4 && WireLength(t) > MESSAGE_SIZE_MAX)
  {
    hide WireLength;
    assert handled + [] == handled;
  }

  lemma {:induction false} RetainedEnd(s: seq<Byte>, off: nat, handled: seq<Message>)
    requires Progress(s, off, handled) && !Complete(s[off..])
    ensures Retained(s) == if |s| - off >= 4 then s[off..] else s[..|s| - off]
  {
    ProgressDone(s, off, handled);
    hide WireLength;
    assert off == 0 ==> s[..|s|] == s[off..];
  }

  class ReadBuffer {
    var data: array<Byte>
    var len: nat
    var off: nat
    var enabled: bool
    var delivered: seq<Message>

    /** State in which the event loop may call the read callback. */
    ghost predicate Ready()
      reads this
    {
      enabled && off == 0 && len < data.Length && 4 <= data.Length
    }

    constructor (size: nat)
      requires 4 <= size
      ensures Ready() && fresh(data) && data.Length == size && len == 0 && delivered == []
    {
      data := new Byte[size](_ => 0);
      len, off, enabled, delivered := 0, 0, true, [];
    }

    /** `expand_buf`: make room for needed bytes and drop what was consumed. */
    method Expand(needed: nat)
      requires off <= len <= data.Length
      modifies this`data, this`len, this`off, data
      ensures off == 0 && len == old(len - off) && len <= data.Length
      ensures data == old(data) || fresh(data)
      ensures data[..len] == old(data[off..len])
      ensures needed <= data.Length
      ensures data.Length == if old(data.Length) < needed then Pow2Roundup(needed) else old(data.Length)
    {
      ghost var unread := data[off..len];
      if data.Length < needed {
        var newdata := new Byte[Pow2Roundup(needed)](_ => 0);
        forall i | 0 <= i < len - off {
          newdata[i] := data[off + i];
        }
        data := newdata;
      } else {
        forall i | 0 <= i < len - off {
          data[i] := data[off + i];
        }
      }
      len, off := len - off, 0;
      assert data[..len] == unread;
    }

    /** read(2) into the free part of the buffer. */
    method Append(chunk: seq<Byte>)
      requires |chunk| <= data.Length - len
      modifies this`len, data
      ensures len == old(len) + |chunk| && data[..len] == old(data[..len]) + chunk
    {
      ghost var before := data[..len];
      forall i | 0 <= i < |chunk| {
        data[len + i] := chunk[i];
      }
      len := len + |chunk|;
      assert data[..len] == before + chunk;
    }

    /** Hand on the message of n bytes at the front and step over it. */
    method Deliver(n: nat, ghost s: seq<Byte>) returns (ghost m: Message)
      requires off + 4 + n <= len <= data.Length && data[..len] == s
      modifies this`delivered, this`off
      ensures off == old(off) + 4 + n <= |s| && m == s[old(off) + 4..off] && delivered == old(delivered) + [m]
    {
      var message := data[off + 4..off + 4 + n];
      m := message;
      assert message == s[off + 4..off + 4 + n];
      delivered := delivered + [message];
      off := off + 4 + n;
    }

    /** The read callback after a read that returned `chunk`.  The message
        handler accepts the first `accepts` messages it is given. */
    method Receive(chunk: seq<Byte>, accepts: nat) returns (outcome: Outcome)
      requires Ready() && 0 < |chunk| <= data.Length - len
      modifies this, data
      ensures outcome ==
              var p := Parse(old(data[..len]) + chunk);
              if accepts < |p.msgs| then Refused else if p.tooLarge then TooLarge else Continue
      ensures var p := Parse(old(data[..len]) + chunk);
              delivered == old(delivered) + if outcome.Refused? then p.msgs[..accepts] else p.msgs
      ensures outcome.Continue? ==> Ready() && data[..len] == Retained(old(data[..len]) + chunk)
      ensures !outcome.Continue? ==> !enabled
      ensures data == old(data) || fresh(data)
      ensures old(data.Length) <= data.Length
      ensures data.Length <= old(data.Length) || data.Length <= READ_BUFFER_MAX
    {
      hide Parse, WireLength, Progress, Retained, Pow2Roundup;
      ghost var s := data[..len] + chunk;
      Append(chunk);
      ghost var handled: seq<Message> := [];
      var count := 0;
      ProgressStart(s);
      while len - off >= 4
        invariant off <= len == |s| <= data.Length && data == old(data) && enabled
        invariant data[..len] == s
        invariant delivered == old(delivered) + handled
        invariant Progress(s, off, handled)
        invariant count == |handled| <= accepts
        decreases len - off
      {
        var n := WireLength(data[off..len]);
        assert data[off..len] == s[off..];
        if n > MESSAGE_SIZE_MAX {
          ProgressDone(s, off, handled);
          enabled := false;
          return TooLarge;
        }
        if n + 4 > len - off {
          ProgressDone(s, off, handled);
          RetainedEnd(s, off, handled);
          RoundupBound(n + 4);
          Expand(n + 4);
          return Continue;
        }
        ProgressStep(s, off, handled);
        if count == accepts {
          enabled := false;
          return Refused;
        }
        ghost var m := Deliver(n, s);
        handled, count := handled + [m], count + 1;
      }
      ProgressDone(s, off, handled);
      RetainedEnd(s, off, handled);
      len := len - off;
      off := 0;
      assert data[..len] == s[..len];
      return Continue;
    }
  }

  /** A read ended inside a length word, after a delivered message, and the
      bytes of that word differ from those at the front of the buffer, where
      the length word of the first delivered message still stands. */
  predicate HarmfulCut(s: seq<Byte>) {
    var p := Parse(s);
    ParseSplits(s);
    p.msgs != [] && 0 < |p.rest| < 4 && s[..|p.rest|] != p.rest
  }

  /** What one connection has kept and handed on, fed read by read. */
  datatype Reader = Reader(kept: seq<Byte>, delivered: seq<Message>, stopped: bool)

  const START := Reader([], [], false)

  function Feed(r: Reader, chunk: seq<Byte>): Reader {
    if r.stopped then r
    else
      var s := r.kept + chunk;
      Reader(Retained(s), r.delivered + Parse(s).msgs, Parse(s).tooLarge)
  }

  function FeedAll(chunks: seq<seq<Byte>>): Reader {
    if chunks == [] then START else Feed(FeedAll(chunks[..|chunks| - 1]), chunks[|chunks| - 1])
  }

  function Concat(chunks: seq<seq<Byte>>): seq<Byte> {
    if chunks == [] then [] else Concat(chunks[..|chunks| - 1]) + chunks[|chunks| - 1]
  }

  /** No read of the run ends in a harmful cut. */
  ghost predicate CleanRun(chunks: seq<seq<Byte>>) {
    chunks != [] ==>
      var before := chunks[..|chunks| - 1];
      CleanRun(before) && (!FeedAll(before).stopped ==> !HarmfulCut(FeedAll(before).kept + chunks[|chunks| - 1]))
  }

  function Min(a: nat, b: nat): nat {
    if a < b then a else b
  }

  lemma {:induction false} FewMessages(s: seq<Byte>)
    ensures |Parse(s).msgs| <= |s|
  {
    if Complete(s) {
      FewMessages(s[4 + WireLength(s)..]);
    }
  }

  lemma {:induction false} FeedOne(chunks: seq<seq<Byte>>, chunk: seq<Byte>)
    ensures var r := FeedAll(chunks);
            !r.stopped ==>
              var s := r.kept + chunk;
              FeedAll(chunks + [chunk]) == Reader(Retained(s), r.delivered + Parse(s).msgs, Parse(s).tooLarge)
  {
    var all := chunks + [chunk];
    assert all[..|all| - 1] == chunks;
  }

  lemma {:induction false} ConcatOne(chunks: seq<seq<Byte>>, chunk: seq<Byte>)
    ensures Concat(chunks + [chunk]) == Concat(chunks) + chunk
  {
    var all := chunks + [chunk];
    assert all[..|all| - 1] == chunks;
  }

  /** A callback keeps exactly the unparsed bytes unless its cut was harmful. */
  lemma {:induction false} RetainedExactly(s: seq<Byte>)
    requires !Parse(s).tooLarge
    ensures |Retained(s)| == |Parse(s).rest|
    ensures Retained(s) == Parse(s).rest <==> !HarmfulCut(s)
  {
    ParseSplits(s);
    hide Parse, WireLength;
  }

  /** However a stream is cut into reads, the messages handed on are those of
      parsing it in one go, as long as no cut is harmful. */
  lemma {:induction false} CutIndependence(chunks: seq<seq<Byte>>)
    requires CleanRun(chunks)
    ensures var r := FeedAll(chunks); var p := Parse(Concat(chunks));
            r.delivered == p.msgs && r.stopped == p.tooLarge && (!r.stopped ==> r.kept == p.rest)
  {
    if chunks != [] {
      var before, chunk := chunks[..|chunks| - 1], chunks[|chunks| - 1];
      CutIndependence(before);
      var r := FeedAll(before);
      if r.stopped {
        TooLargeStays(Concat(before), chunk);
      } else {
        ParseResumes(Concat(before), chunk);
        if !Parse(r.kept + chunk).tooLarge {
          RetainedExactly(r.kept + chunk);
        }
      }
    }
  }

  /** The condition is exact at every read of a connection: after any clean run,
      once the bytes that follow complete one more message, a harmful cut has
      changed what is delivered, and only a harmful cut has. */
  lemma {:induction false} HarmfulCutIsFelt(before: seq<seq<Byte>>, chunk: seq<Byte>, more: seq<Byte>)
    requires CleanRun(before) && !FeedAll(before).stopped
    requires var p := Parse(FeedAll(before).kept + chunk); !p.tooLarge && Parse(p.rest + more).msgs != []
    ensures FeedAll(before + [chunk] + [more]).delivered == Parse(Concat(before + [chunk] + [more])).msgs
            <==> !HarmfulCut(FeedAll(before).kept + chunk)
  {
    hide Parse, FeedAll, Concat;
    var r, seen := FeedAll(before), Concat(before);
    var s := r.kept + chunk;
    var p := Parse(s);
    CutIndependence(before);
    FeedOne(before, chunk);
    FeedOne(before + [chunk], more);
    ConcatOne(before, chunk);
    ConcatOne(before + [chunk], more);
    ParseResumes(seen, chunk);
    ParseResumes(seen + chunk, more);
    RetainedExactly(s);
    var good, bad, base := p.rest + more, Retained(s) + more, r.delivered + p.msgs;
    assert Parse(seen + chunk + more).msgs == base + Parse(good).msgs;
    if HarmfulCut(s) {
      DifferentTails(p.rest, Retained(s), more);
      assert (base + Parse(good).msgs)[|base|..] == Parse(good).msgs;
      assert (base + Parse(bad).msgs)[|base|..] == Parse(bad).msgs;
    }
  }

  /** Different bytes of a length word lead to different messages. */
  lemma {:induction false} DifferentTails(a: seq<Byte>, b: seq<Byte>, more: seq<Byte>)
    requires |a| == |b| <= 4 && a != b && Parse(a + more).msgs != []
    ensures Parse(a + more).msgs != Parse(b + more).msgs
  {
    assert (a + more)[..|a|] == a && (b + more)[..|b|] == b;
    DifferentWordsDifferentMessages(a + more, b + more, |a|);
  }

  lemma {:induction false} DifferentWordsDifferentMessages(a: seq<Byte>, b: seq<Byte>, k: nat)
    requires k <= 4 && k <= |a| && k <= |b| && a[..k] != b[..k]
    requires Parse(a).msgs != []
    ensures Parse(a).msgs != Parse(b).msgs
  {
    if Complete(b) && WireLength(a) == WireLength(b) {
      assert a[..k] == a[..4][..k] && b[..k] == b[..4][..k];
      WireLengthInjective(a, b);
    } else if Complete(b) {
      assert |Parse(a).msgs[0]| != |Parse(b).msgs[0]|;
    }
  }

  /** A single stranded byte does no harm to a stream of lengths in range: the
      top byte of every such length is zero. */
  lemma {:induction false} OneByteCutIsHarmless(s: seq<Byte>)
    requires |Parse(s).rest| == 1 && Parse(s).rest[0] == 0
    ensures !HarmfulCut(s)
  {
    ParseSplits(s);
    if Parse(s).msgs != [] {
      assert Complete(s);
      TopByte(s);
    }
  }

  lemma {:induction false} TopByte(s: seq<Byte>)
    requires |s| >= 4 && WireLength(s) < 0x100_0000
    ensures s[0] == 0
  {
    assert s[..4][..3][..2][..1] == s[..1];
    assert Value(s[..4]) == Value(s[..3]) * 256 + s[3] as nat by { assert s[..4][..3] == s[..3]; }
    assert Value(s[..3]) == Value(s[..2]) * 256 + s[2] as nat by { assert s[..3][..2] == s[..2]; }
    assert Value(s[..2]) == Value(s[..1]) * 256 + s[1] as nat by { assert s[..2][..1] == s[..1]; }
    assert Value(s[..1]) == s[0] as nat by { assert s[..1][..0] == []; }
  }

  /** A harmful cut exists: 256 bytes of message, then three bytes of the next length. */
  lemma {:induction false} HarmfulCutExists()
    ensures exists s :: !Parse(s).tooLarge && HarmfulCut(s)
  {
    var m: Message := seq(256, _ => 0 as Byte);
    var tail: seq<Byte> := [0, 0, 0];
    var s := Frame(m) + tail;
    assert Frames([m]) == Frame(m) + Frames([]) == Frame(m);
    ParseFrames([m], tail);
    assert Parse(s) == Parsed([m], tail, false);
    assert s[..3][2] == LengthWord(256)[2] == 1;
    assert HarmfulCut(s);
  }

  /** The buffer is where these reads have brought it. */
  ghost predicate FedBy(buf: ReadBuffer, chunks: seq<seq<Byte>>)
    reads buf, buf.data
  {
    var r := FeedAll(chunks);
    && buf.delivered == r.delivered && buf.enabled == !r.stopped
    && (buf.enabled ==> buf.Ready() && buf.data[..buf.len] == r.kept)
  }

  /** One read of a connection whose handler accepts everything. */
  method ReceiveOne(buf: ReadBuffer, chunk: seq<Byte>, ghost chunks: seq<seq<Byte>>)
    requires FedBy(buf, chunks) && buf.enabled && 0 < |chunk| <= buf.data.Length - buf.len
    modifies buf, buf.data
    ensures FedBy(buf, chunks + [chunk])
    ensures buf.data == old(buf.data) || fresh(buf.data)
    ensures buf.data.Length <= old(buf.data.Length) || buf.data.Length <= READ_BUFFER_MAX
  {
    hide FeedAll, Parse, Retained;
    FeedOne(chunks, chunk);
    FewMessages(buf.data[..buf.len] + chunk);
    var outcome := buf.Receive(chunk, buf.data.Length);
  }

  /** Serving a connection: for every pattern of short reads the buffer stays
      at most the larger of its first size and 4 MiB, a read never asks for
      zero bytes, and without a harmful cut the messages delivered are those of
      parsing what has been read in one go. */
  method Serve(size: nat, stream: seq<Byte>, sizes: seq<nat>) returns (buf: ReadBuffer, pos: nat, ghost chunks: seq<seq<Byte>>)
    requires 4 <= size
    ensures pos <= |stream| && Concat(chunks) == stream[..pos]
    ensures buf.delivered == FeedAll(chunks).delivered && (buf.enabled ==> buf.Ready())
    ensures buf.data.Length <= size || buf.data.Length <= READ_BUFFER_MAX
    ensures CleanRun(chunks) ==> buf.delivered == Parse(stream[..pos]).msgs && buf.enabled == !Parse(stream[..pos]).tooLarge
  {
    buf := new ReadBuffer(size);
    pos, chunks := 0, [];
    hide FeedAll, Concat, CleanRun, Parse;
    NothingFed(buf);
    for i := 0 to |sizes|
      invariant pos <= |stream| && Concat(chunks) == stream[..pos]
      invariant fresh(buf) && fresh(buf.data) && FedBy(buf, chunks)
      invariant buf.data.Length <= size || buf.data.Length <= READ_BUFFER_MAX
    {
      if buf.enabled {
        var k := Min(sizes[i], Min(buf.data.Length - buf.len, |stream| - pos));
        if k > 0 {
          var chunk := stream[pos..pos + k];
          ConcatOne(chunks, chunk);
          ReceiveOne(buf, chunk, chunks);
          assert stream[..pos + k] == stream[..pos] + chunk;
          pos, chunks := pos + k, chunks + [chunk];
        }
      }
    }
    if CleanRun(chunks) {
      CutIndependence(chunks);
    }
  }

  lemma {:induction false} NothingFed(buf: ReadBuffer)
    requires buf.Ready() && buf.len == 0 && buf.delivered == []
    ensures FedBy(buf, []) && Concat([]) == []
  {
  }
}
