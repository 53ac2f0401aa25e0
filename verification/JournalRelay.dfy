/** Store and forward: messages kept in a journal file, read back through the
    framing loop and queued for the relay, arrive there as the same bytes. */
module JournalRelay {
  import opened IoLogs
  import opened Options
  import opened Framing
  import opened ReadBuffers
  import opened WriteQueues
  import opened LocalStore

  /** The journal of a connection that stores first: the bytes in the file, the
      bytes still in the buffer of stdio(3), and the descriptor's offset, from
      which a replay on the same descriptor reads. */
  class Journal {
    var file: seq<Byte>
    var buffer: seq<Byte>
    var pos: nat
    ghost var stored: seq<Message>
    ghost var finished: bool

    /** File and buffer are the frames of the messages stored; only a finished
        journal is flushed and read from its start. */
    ghost predicate Valid()
      reads this
    {
      && Sendable(stored) && file + buffer == Frames(stored)
      && if finished then buffer == [] && pos == 0 else pos == |file|
    }

    constructor ()
      ensures Valid() && stored == [] && !finished
    {
      file, buffer, pos, stored, finished := [], [], 0, [], false;
    }

    /** A journal that was closed, and so flushed, and is opened again. */
    constructor Reopened(journal: Journal)
      requires journal.Valid()
      ensures Valid() && stored == journal.stored && finished
    {
      file, buffer, pos, stored, finished := journal.file + journal.buffer, [], 0, journal.stored, true;
      new;
      assert file + [] == file;
    }

    /** `journal_write`: the length word, then the payload, of which stdio(3)
        passes on as much as it likes, to where the offset stands. */
    method Write(m: Message, spill: nat)
      requires |m| <= MESSAGE_SIZE_MAX && spill <= |buffer| + |Frame(m)|
      modifies this
      ensures var bytes := old(buffer) + Frame(m);
              && file == WriteAt(old(file), old(pos), bytes[..spill]) && pos == old(pos) + spill && buffer == bytes[spill..]
      ensures finished == old(finished) && stored == old(stored) + [m]
      ensures old(Valid() && !finished) ==> Valid()
    {
      hide WriteAt, Frames, LengthWord;
      ghost var all := file + buffer;
      var bytes := buffer + LengthWord(|m|);
      bytes := bytes + m;
      assert bytes == buffer + Frame(m) && bytes[..spill] + bytes[spill..] == bytes;
      if Sendable(stored) {
        FramesOne(stored, m);
      }
      Appended(file, bytes[..spill]);
      assert (file + bytes[..spill]) + bytes[spill..] == file + (bytes[..spill] + bytes[spill..]);
      assert all + Frame(m) == file + (buffer + Frame(m));
      file, pos, buffer := WriteAt(file, pos, bytes[..spill]), pos + spill, bytes[spill..];
      stored := stored + [m];
    }

    /** `journal_finish`, when the Exit message has been stored. */
    method Finish()
      requires Valid() && !finished
      modifies this
      ensures Valid() && finished && stored == old(stored)
    {
      hide WriteAt, Frames;
      Appended(file, buffer);
      file, pos, buffer, finished := WriteAt(file, pos, buffer), 0, [], true;
      assert file + [] == file;
    }

    /** What a replay on the same descriptor reads. */
    ghost function Rest(): seq<Byte>
      reads this
      requires pos <= |file|
    {
      file[pos..]
    }

    /** The messages it comes upon. */
    ghost function Replayed(): seq<Message>
      reads this
    {
      if finished then stored else []
    }

    lemma {:induction false} RestIsReplayed()
      requires Valid()
      ensures pos <= |file| && Sendable(Replayed()) && Rest() == Frames(Replayed())
    {
      assert finished ==> file + buffer == file;
    }

    /** A replay starts at the beginning of the journal and finds all of it if
        and only if the session ended with Exit, or nothing was stored; the
        journal of a rejected session is read from its end. */
    lemma {:induction false} ReplayedWholeIff()
      requires Valid()
      ensures Replayed() == stored <==> finished || stored == []
      ensures pos <= |file| && (Rest() == Frames(stored) <==> finished || stored == [])
    {
      RestIsReplayed();
      if stored != [] {
        FramesNotEmpty(stored);
      }
    }
  }

  lemma {:induction false} FramesNotEmpty(ms: seq<Message>)
    requires Sendable(ms) && ms != []
    ensures Frames(ms) != []
  {
    hide LengthWord;
    assert |Frame(ms[0])| >= 4;
  }

  lemma {:induction false} Appended(file: seq<Byte>, d: seq<Byte>)
    ensures WriteAt(file, |file|, d) == file + d
  {
  }

  lemma {:induction false} FramesOne(ms: seq<Message>, m: Message)
    requires Sendable(ms) && |m| <= MESSAGE_SIZE_MAX
    ensures Sendable(ms + [m]) && Frames(ms + [m]) == Frames(ms) + Frame(m)
  {
    hide LengthWord;
    FramesAppend(ms, [m]);
    assert Frames([m]) == Frame(m) + Frames([]);
  }

  /** The sending half of a relay connection. */
  class Relay {
    var writeBufs: seq<WriteBuf>
    var writing: bool
    ghost var queued: seq<Message>
    ghost var wire: seq<Byte>

    /** The write event is enabled exactly while something is queued, and the
        bytes written and queued are the frames in the order they came. */
    ghost predicate Valid()
      reads this
    {
      && (forall i :: 0 <= i < |writeBufs| ==> Queued(writeBufs[i]))
      && (writing <==> writeBufs != [])
      && Sendable(queued)
      && wire + Pending(writeBufs) == Frames(queued)
    }

    /** `start_relay`: a ClientHello is queued first. */
    constructor (hello: Message)
      requires |hello| <= MESSAGE_SIZE_MAX
      ensures Valid() && queued == [hello]
    {
      writeBufs, writing, queued, wire := [], false, [], [];
      new;
      Enqueue(hello);
    }

    /** `relay_enqueue_write` */
    method Enqueue(m: Message)
      requires Valid() && |m| <= MESSAGE_SIZE_MAX
      modifies this
      ensures Valid() && queued == old(queued) + [m] && wire == old(wire)
    {
      hide LengthWord, Frames, Pending, Pow2Roundup;
      var frame := Frame(m);
      var b := WriteBuf(Pow2Roundup(|frame|), frame, 0);
      PendingAppend(writeBufs, b);
      FramesOne(queued, m);
      assert wire + (Pending(writeBufs) + frame) == (wire + Pending(writeBufs)) + frame;
      writing := true;
      writeBufs := writeBufs + [b];
      queued := queued + [m];
    }

    /** What has arrived at the relay after a run of reads and writes. */
    lemma {:induction false} Outstanding(ms: seq<Message>, hello: Message, pos: nat, chunks: seq<seq<Byte>>, accepts: nat, hand: Handler)
      requires Valid() && |hello| <= MESSAGE_SIZE_MAX && Sendable(ms) && Fits(hand) && pos <= |Frames(ms)|
      requires CleanRun(chunks) && Concat(chunks) == Frames(ms)[..pos]
      requires queued == [hello] + Handed(hand, UpTo(FeedAll(chunks).delivered, accepts))
      ensures var all := Handed(hand, UpTo(ms, accepts));
              && Sendable(all) && queued <= [hello] + all && wire <= Frame(hello) + Frames(all)
              && ((pos == |Frames(ms)| || accepts < |FeedAll(chunks).delivered|) && !writing ==> wire == Frame(hello) + Frames(all))
    {
      Arrived(ms, hello, pos, chunks, accepts, hand, wire, Pending(writeBufs));
    }

    /** The event loop finds room for n bytes in the socket. */
    method Flush(n: nat)
      requires Valid()
      modifies this
      ensures Valid() && queued == old(queued)
      ensures if !old(writing) then wire == old(wire) && !writing
              else
                var b := old(writeBufs[0]);
                wire == old(wire) + b.data[b.off..b.off + Min(n, |b.data| - b.off)]
    {
      if writing {
        ClientMsgCb(Min(n, |writeBufs[0].data| - writeBufs[0].off));
      }
    }

    /** `relay_client_msg_cb`, when write(2) takes n bytes. */
    method ClientMsgCb(n: nat)
      requires Valid() && writing && n <= |writeBufs[0].data| - writeBufs[0].off
      modifies this
      ensures Valid() && queued == old(queued)
      ensures wire == old(wire) + old(writeBufs[0].data[writeBufs[0].off..writeBufs[0].off + n])
    {
      hide Frames, Pending;
      var b := writeBufs[0];
      AdvancedPending(writeBufs, n);
      var chunk := b.data[b.off..b.off + n];
      assert (wire + chunk) + Pending(Advanced(writeBufs, n)) == wire + (chunk + Pending(Advanced(writeBufs, n)));
      wire := wire + chunk;
      if b.off + n == |b.data| {
        writeBufs := writeBufs[1..];
        if writeBufs == [] {
          writing := false;
        }
      } else {
        writeBufs := [b.(off := b.off + n)] + writeBufs[1..];
      }
    }
  }

  /** What the event loop finds ready: up to n bytes to read from the journal,
      or room for n bytes in the relay's socket. */
  datatype Ready = Readable(n: nat) | Writable(n: nat)

  /** The messages up to the first one that is refused. */
  function UpTo(ms: seq<Message>, accepts: nat): (r: seq<Message>)
    ensures r <= ms && (|ms| <= accepts ==> r == ms)
  {
    if accepts < |ms| then ms[..accepts] else ms
  }

  /** What the relay's handlers queue for a message: most messages as they are,
      a RestartMessage packed anew, a ClientHello not at all. */
  type Handler = Message -> Option<Message>

  /** What is queued can be sent. */
  ghost predicate Fits(hand: Handler) {
    forall m :: |m| <= MESSAGE_SIZE_MAX && hand(m).Some? ==> |hand(m).value| <= MESSAGE_SIZE_MAX
  }

  function HandedOne(hand: Handler, m: Message): seq<Message> {
    if hand(m).Some? then [hand(m).value] else []
  }

  function Handed(hand: Handler, ms: seq<Message>): seq<Message> {
    if ms == [] then [] else Handed(hand, ms[..|ms| - 1]) + HandedOne(hand, ms[|ms| - 1])
  }

  lemma {:induction false} HandedConcat(hand: Handler, a: seq<Message>, b: seq<Message>)
    ensures Handed(hand, a + b) == Handed(hand, a) + Handed(hand, b)
    decreases |b|
  {
    if b == [] {
      assert a + b == a;
    } else {
      var k := |b| - 1;
      HandedConcat(hand, a, b[..k]);
      assert (a + b)[..|a + b| - 1] == a + b[..k] && (a + b)[|a + b| - 1] == b[k];
      hide Handed, HandedOne;
      HandedLast(hand, a + b);
      HandedLast(hand, b);
      var x, y, z := Handed(hand, a), Handed(hand, b[..k]), HandedOne(hand, b[k]);
      assert (x + y) + z == x + (y + z);
    }
  }

  lemma {:induction false} HandedLast(hand: Handler, ms: seq<Message>)
    requires ms != []
    ensures Handed(hand, ms) == Handed(hand, ms[..|ms| - 1]) + HandedOne(hand, ms[|ms| - 1])
  {
  }

  lemma {:induction false} HandedSendable(hand: Handler, ms: seq<Message>)
    requires Sendable(ms) && Fits(hand)
    ensures Sendable(Handed(hand, ms))
  {
    if ms != [] {
      HandedSendable(hand, ms[..|ms| - 1]);
    }
  }

  /** Messages that are neither packed anew nor kept back arrive as they are. */
  lemma {:induction false} HandedUnchanged(hand: Handler, ms: seq<Message>)
    requires forall m <- ms :: hand(m) == Some(m)
    ensures Handed(hand, ms) == ms
  {
    if ms != [] {
      var k := |ms| - 1;
      assert ms[k] in ms;
      HandedUnchanged(hand, ms[..k]);
      assert ms == ms[..k] + [ms[k]];
    }
  }

  /** One read from the journal: the complete messages go to the relay, up to
      the first one that its handler refuses. */
  method Forward(buf: ReadBuffer, relay: Relay, chunk: seq<Byte>, accepts: nat, hand: Handler)
    requires buf.Ready() && 0 < |chunk| <= buf.data.Length - buf.len
    requires relay.Valid() && Fits(hand)
    modifies buf, buf.data, relay
    ensures var p := Parse(old(buf.data[..buf.len]) + chunk);
            && buf.delivered == old(buf.delivered) + UpTo(p.msgs, accepts)
            && relay.queued == old(relay.queued) + Handed(hand, UpTo(p.msgs, accepts))
            && buf.enabled == (!p.tooLarge && |p.msgs| <= accepts)
    ensures buf.enabled ==> buf.Ready() && buf.data[..buf.len] == Retained(old(buf.data[..buf.len]) + chunk)
    ensures relay.Valid() && relay.wire == old(relay.wire)
    ensures buf.data == old(buf.data) || fresh(buf.data)
  {
    hide Parse, Retained, Handed, Fits, UpTo, LengthWord;
    ghost var s := buf.data[..buf.len] + chunk;
    DeliverableMessages(s);
    var before := |buf.delivered|;
    var outcome := buf.Receive(chunk, accepts);
    ghost var ms := UpTo(Parse(s).msgs, accepts);
    UpToOf(Parse(s).msgs, accepts);
    HandedNone(hand);
    for i := before to |buf.delivered|
      invariant relay.Valid() && relay.wire == old(relay.wire)
      invariant relay.queued == old(relay.queued) + Handed(hand, ms[..i - before])
      modifies relay
    {
      assert buf.delivered[i] == ms[i - before];
      HandOver(relay, buf.delivered[i], hand, ms, i - before, old(relay.queued));
    }
    assert ms[..|ms|] == ms;
  }

  lemma {:induction false} UpToOf(ms: seq<Message>, accepts: nat)
    ensures UpTo(ms, accepts) == if accepts < |ms| then ms[..accepts] else ms
  {
  }

  lemma {:induction false} HandedNone(hand: Handler)
    ensures Handed(hand, []) == []
  {
  }

  /** One message, as its handler wants it. */
  method HandOver(relay: Relay, m: Message, hand: Handler, ghost ms: seq<Message>, ghost k: nat, ghost queued: seq<Message>)
    requires relay.Valid() && Fits(hand) && k < |ms| && m == ms[k] && |m| <= MESSAGE_SIZE_MAX
    requires relay.queued == queued + Handed(hand, ms[..k])
    modifies relay
    ensures relay.Valid() && relay.wire == old(relay.wire) && relay.queued == queued + Handed(hand, ms[..k + 1])
  {
    hide Handed, Relay.Valid;
    HandedLast(hand, ms[..k + 1]);
    assert ms[..k + 1][..k] == ms[..k];
    ghost var one, done := HandedOne(hand, m), Handed(hand, ms[..k]);
    assert (queued + done) + one == queued + (done + one);
    var out := hand(m);
    if out.Some? {
      relay.Enqueue(out.value);
    } else {
      assert relay.queued + [] == relay.queued;
    }
  }

  lemma {:induction false} DeliverableMessages(s: seq<Byte>)
    ensures Sendable(Parse(s).msgs)
  {
    ParseSplits(s);
  }

  /** What the framing loop takes out of the part of the journal read so far. */
  lemma {:induction false} TakenFromPrefix(ms: seq<Message>, pos: nat)
    requires Sendable(ms) && pos <= |Frames(ms)|
    ensures var p := Parse(Frames(ms)[..pos]); p.msgs <= ms && (pos == |Frames(ms)| ==> p.msgs == ms) && !p.tooLarge
  {
    hide WireLength, LengthWord;
    var all := Frames(ms);
    ParseFrames(ms, []);
    assert all + [] == all && ms + [] == ms;
    ParseResumes(all[..pos], all[pos..]);
    assert all == all[..pos] + all[pos..];
    if Parse(all[..pos]).tooLarge {
      TooLargeStays(all[..pos], all[pos..]);
    }
  }

  lemma {:induction false} FramesPrefix(hello: Message, del: seq<Message>, ms: seq<Message>)
    requires |hello| <= MESSAGE_SIZE_MAX && Sendable(ms) && del <= ms
    ensures Sendable([hello] + del) && Frames([hello] + del) <= Frame(hello) + Frames(ms)
    ensures del == ms ==> Frames([hello] + del) == Frame(hello) + Frames(ms)
  {
    hide LengthWord;
    assert ([hello] + del)[1..] == del;
    assert ms == del + ms[|del|..];
    FramesAppend(del, ms[|del|..]);
  }

  lemma {:induction false} UpToPrefix(a: seq<Message>, ms: seq<Message>, accepts: nat)
    requires Sendable(ms) && a <= ms
    ensures UpTo(a, accepts) <= UpTo(ms, accepts) && Sendable(UpTo(ms, accepts))
    ensures a == ms || accepts < |a| ==> UpTo(a, accepts) == UpTo(ms, accepts)
  {
  }

  lemma {:induction false} Arrived(ms: seq<Message>, hello: Message, pos: nat, chunks: seq<seq<Byte>>, accepts: nat, hand: Handler,
                                   wire: seq<Byte>, rest: seq<Byte>)
    requires |hello| <= MESSAGE_SIZE_MAX && Sendable(ms) && Fits(hand) && pos <= |Frames(ms)|
    requires CleanRun(chunks) && Concat(chunks) == Frames(ms)[..pos]
    requires var del := Handed(hand, UpTo(FeedAll(chunks).delivered, accepts)); Sendable([hello] + del) && wire + rest == Frames([hello] + del)
    ensures var del, all := Handed(hand, UpTo(FeedAll(chunks).delivered, accepts)), Handed(hand, UpTo(ms, accepts));
            && del <= all && Sendable(all) && wire <= Frame(hello) + Frames(all)
            && ((pos == |Frames(ms)| || accepts < |FeedAll(chunks).delivered|) && rest == [] ==> wire == Frame(hello) + Frames(all))
  {
    hide Frames, FeedAll, Parse, CleanRun, Concat, Frame, UpTo, Handed, Fits;
    CutIndependence(chunks);
    TakenFromPrefix(ms, pos);
    var some := FeedAll(chunks).delivered;
    UpToPrefix(some, ms, accepts);
    HandedPrefix(hand, UpTo(some, accepts), UpTo(ms, accepts));
    HandedSendable(hand, UpTo(ms, accepts));
    FramesPrefix(hello, Handed(hand, UpTo(some, accepts)), Handed(hand, UpTo(ms, accepts)));
    assert rest == [] ==> wire + rest == wire;
  }

  lemma {:induction false} HandedPrefix(hand: Handler, a: seq<Message>, b: seq<Message>)
    requires a <= b
    ensures Handed(hand, a) <= Handed(hand, b)
  {
    assert b == a + b[|a|..];
    HandedConcat(hand, a, b[|a|..]);
  }

  /** The buffer and the relay's queue are where these reads have brought them. */
  ghost predicate InStep(buf: ReadBuffer, relay: Relay, hello: Message, chunks: seq<seq<Byte>>, accepts: nat, hand: Handler)
    reads buf, buf.data, relay
  {
    var r := FeedAll(chunks);
    && relay.Valid() && relay.queued == [hello] + Handed(hand, UpTo(r.delivered, accepts))
    && buf.delivered == UpTo(r.delivered, accepts) && buf.enabled == (!r.stopped && |r.delivered| <= accepts)
    && (buf.enabled ==> buf.Ready() && buf.data[..buf.len] == r.kept)
  }

  lemma {:induction false} UpToMore(a: seq<Message>, b: seq<Message>, accepts: nat)
    requires |a| <= accepts
    ensures UpTo(a + b, accepts) == a + UpTo(b, accepts - |a|)
  {
  }

  method Read(buf: ReadBuffer, relay: Relay, chunk: seq<Byte>, accepts: nat, hand: Handler, ghost hello: Message, ghost chunks: seq<seq<Byte>>)
    requires InStep(buf, relay, hello, chunks, accepts, hand) && Fits(hand)
    requires buf.enabled && 0 < |chunk| <= buf.data.Length - buf.len
    modifies buf, buf.data, relay
    ensures InStep(buf, relay, hello, chunks + [chunk], accepts, hand) && relay.wire == old(relay.wire)
    ensures buf.data == old(buf.data) || fresh(buf.data)
  {
    hide FeedAll, Relay.Valid, Parse, Retained, UpTo, Handed, Fits;
    FeedOne(chunks, chunk);
    ghost var r := FeedAll(chunks);
    ghost var ms := Parse(r.kept + chunk).msgs;
    Forward(buf, relay, chunk, accepts - |buf.delivered|, hand);
    UpToMore(r.delivered, ms, accepts);
    ghost var more := UpTo(ms, accepts - |r.delivered|);
    HandedConcat(hand, r.delivered, more);
    assert [hello] + (Handed(hand, r.delivered) + Handed(hand, more)) == ([hello] + Handed(hand, r.delivered)) + Handed(hand, more);
  }

  /** One turn of the event loop. */
  method Turn(buf: ReadBuffer, relay: Relay, journal: seq<Byte>, pos: nat, event: Ready, accepts: nat, hand: Handler,
              ghost hello: Message, ghost chunks: seq<seq<Byte>>)
    returns (pos': nat, ghost chunks': seq<seq<Byte>>)
    requires InStep(buf, relay, hello, chunks, accepts, hand) && Fits(hand) && pos <= |journal| && Concat(chunks) == journal[..pos]
    modifies buf, buf.data, relay
    ensures InStep(buf, relay, hello, chunks', accepts, hand) && pos' <= |journal| && Concat(chunks') == journal[..pos']
    ensures buf.data == old(buf.data) || fresh(buf.data)
    ensures event.Readable? ==>
              && relay.wire == old(relay.wire) && (buf.enabled ==> old(buf.enabled))
              && pos' == pos + if old(buf.enabled) then Min(event.n, Min(old(buf.data.Length - buf.len), |journal| - pos)) else 0
    ensures event.Writable? ==>
              && pos' == pos && chunks' == chunks && relay.queued == old(relay.queued) && buf.enabled == old(buf.enabled)
              && if !old(relay.writing) then relay.wire == old(relay.wire) && !relay.writing
                 else
                   var b := old(relay.writeBufs[0]);
                   relay.wire == old(relay.wire) + b.data[b.off..b.off + Min(event.n, |b.data| - b.off)]
  {
    hide FeedAll, Concat, Relay.Valid, UpTo, Handed, Fits;
    pos', chunks' := pos, chunks;
    if event.Writable? {
      relay.Flush(event.n);
    } else if buf.enabled {
      var k := Min(event.n, Min(buf.data.Length - buf.len, |journal| - pos));
      if k > 0 {
        var chunk := journal[pos..pos + k];
        ConcatOne(chunks, chunk);
        Read(buf, relay, chunk, accepts, hand, hello, chunks);
        assert journal[..pos + k] == journal[..pos] + chunk;
        pos', chunks' := pos + k, chunks + [chunk];
      }
    }
  }

  /** What the relay has got of these messages; `whole` when all bytes are read. */
  ghost predicate Relayed(relay: Relay, hello: Message, ms: seq<Message>, chunks: seq<seq<Byte>>, whole: bool, accepts: nat, hand: Handler)
    reads relay
  {
    var all, queued := Handed(hand, UpTo(ms, accepts)), FeedAll(chunks).delivered;
    && Sendable(all) && relay.Valid() && relay.queued == [hello] + Handed(hand, UpTo(queued, accepts))
    && (CleanRun(chunks) ==>
          && |hello| <= MESSAGE_SIZE_MAX && relay.queued <= [hello] + all && relay.wire <= Frame(hello) + Frames(all)
          && ((whole || accepts < |queued|) && !relay.writing ==> relay.wire == Frame(hello) + Frames(all)))
  }

  /** The events on which something can be read. */
  function Reads(events: seq<Ready>): nat {
    if events == [] then 0
    else Reads(events[..|events| - 1]) + if events[|events| - 1].Readable? && events[|events| - 1].n > 0 then 1 else 0
  }

  /** The events on which something can be written, after the last read. */
  function LastWrites(events: seq<Ready>): nat {
    if events == [] || events[|events| - 1].Readable? then 0
    else LastWrites(events[..|events| - 1]) + if events[|events| - 1].n > 0 then 1 else 0
  }

  /** Replaying a journal, from where its descriptor stands, to a relay whose
      handler accepts the first `accepts` messages.  Whatever the reads and
      writes return, the relay gets its ClientHello and then bytes of whole
      frames in order; once all is read, or a message refused, and the queue is
      empty it has got exactly what the handlers make of the accepted messages,
      provided no read ended in a harmful cut.  Every read makes progress until
      then, and every write while something is queued: with enough reads, and
      enough writes after them, the relay has got everything. */
  method Replay(journal: Journal, hello: Message, events: seq<Ready>, accepts: nat, hand: Handler)
    returns (relay: Relay, pos: nat, ghost chunks: seq<seq<Byte>>)
    requires journal.Valid() && |hello| <= MESSAGE_SIZE_MAX && Fits(hand)
    ensures Relayed(relay, hello, journal.Replayed(), chunks, pos == |journal.file|, accepts, hand)
    ensures journal.pos <= pos <= |journal.file| && Concat(chunks) == journal.file[journal.pos..pos]
    ensures CleanRun(chunks) && Reads(events) >= |journal.file| - journal.pos ==>
              pos == |journal.file| || accepts < |FeedAll(chunks).delivered|
    ensures Sendable(relay.queued) && (LastWrites(events) >= |Frames(relay.queued)| ==> !relay.writing)
  {
    hide Relayed, Fits, Concat, Frames, Reads, LastWrites, CleanRun, FeedAll, Sendable;
    journal.RestIsReplayed();
    var done;
    relay, done, chunks := Pump(journal.file[journal.pos..], journal.Replayed(), hello, events, accepts, hand);
    pos := journal.pos + done;
    assert journal.file[journal.pos..][..done] == journal.file[journal.pos..pos];
  }

  /** The first i events have made progress, one by one. */
  ghost predicate Going(buf: ReadBuffer, relay: Relay, size: nat, pos: nat, events: seq<Ready>, i: nat)
    requires i <= |events|
    reads buf, relay
  {
    && (!buf.enabled || pos == size || Reads(events[..i]) <= pos)
    && (relay.writing ==> LastWrites(events[..i]) <= |relay.wire|)
  }

  lemma {:induction false} AllCounted(buf: ReadBuffer, relay: Relay, size: nat, pos: nat, events: seq<Ready>)
    requires Going(buf, relay, size, pos, events, |events|)
    ensures !buf.enabled || pos == size || Reads(events) <= pos
    ensures relay.writing ==> LastWrites(events) <= |relay.wire|
  {
    hide Reads, LastWrites;
    assert events[..|events|] == events;
  }

  method CountedTurn(buf: ReadBuffer, relay: Relay, bytes: seq<Byte>, pos: nat, events: seq<Ready>, i: nat, accepts: nat, hand: Handler,
                     ghost hello: Message, ghost chunks: seq<seq<Byte>>)
    returns (pos': nat, ghost chunks': seq<seq<Byte>>)
    requires InStep(buf, relay, hello, chunks, accepts, hand) && Fits(hand) && pos <= |bytes| && Concat(chunks) == bytes[..pos]
    requires i < |events| && Going(buf, relay, |bytes|, pos, events, i)
    modifies buf, buf.data, relay
    ensures InStep(buf, relay, hello, chunks', accepts, hand) && pos' <= |bytes| && Concat(chunks') == bytes[..pos']
    ensures Going(buf, relay, |bytes|, pos', events, i + 1)
    ensures buf.data == old(buf.data) || fresh(buf.data)
  {
    hide InStep, Concat, Fits, Reads, LastWrites, Frames, Sendable;
    CountEvent(events, i);
    Moving(buf, relay, hello, chunks, accepts, hand);
    pos', chunks' := Turn(buf, relay, bytes, pos, events[i], accepts, hand, hello, chunks);
  }

  /** A new read buffer and a relay connection with its hello queued. */
  method Begin(hello: Message, accepts: nat, hand: Handler) returns (buf: ReadBuffer, relay: Relay)
    requires |hello| <= MESSAGE_SIZE_MAX
    ensures fresh(buf) && fresh(buf.data) && fresh(relay) && InStep(buf, relay, hello, [], accepts, hand)
  {
    buf := new ReadBuffer(64 * 1024);
    relay := new Relay(hello);
  }

  /** The event loop, until `events` are used up. */
  method Pump(bytes: seq<Byte>, ghost ms: seq<Message>, hello: Message, events: seq<Ready>, accepts: nat, hand: Handler)
    returns (relay: Relay, pos: nat, ghost chunks: seq<seq<Byte>>)
    requires Sendable(ms) && bytes == Frames(ms) && |hello| <= MESSAGE_SIZE_MAX && Fits(hand)
    ensures pos <= |bytes| && Concat(chunks) == bytes[..pos]
    ensures Relayed(relay, hello, ms, chunks, pos == |bytes|, accepts, hand)
    ensures CleanRun(chunks) ==> pos >= Reads(events) || pos == |bytes| || accepts < |FeedAll(chunks).delivered|
    ensures Sendable(relay.queued) && (relay.writing ==> LastWrites(events) <= |relay.wire| < |Frames(relay.queued)|)
  {
    UpToPrefix([], ms, accepts);
    HandedSendable(hand, UpTo(ms, accepts));
    var buf;
    buf, relay := Begin(hello, accepts, hand);
    pos, chunks := 0, [];
    assert Concat(chunks) == bytes[..pos] && Going(buf, relay, |bytes|, pos, events, 0);
    hide InStep, FeedAll, Concat, CleanRun, Frames, Relay.Valid, Frame, UpTo, Handed, Fits, Reads, LastWrites, Going;
    for i := 0 to |events|
      invariant pos <= |bytes| && Concat(chunks) == bytes[..pos]
      invariant fresh(buf) && fresh(buf.data) && fresh(relay)
      invariant InStep(buf, relay, hello, chunks, accepts, hand)
      invariant Going(buf, relay, |bytes|, pos, events, i)
    {
      pos, chunks := CountedTurn(buf, relay, bytes, pos, events, i, accepts, hand, hello, chunks);
    }
    AllCounted(buf, relay, |bytes|, pos, events);
    Moving(buf, relay, hello, chunks, accepts, hand);
    StepQueue(buf, relay, hello, chunks, accepts, hand);
    if CleanRun(chunks) {
      StopsReading(buf, relay, hello, ms, pos, chunks, accepts, hand);
      relay.Outstanding(ms, hello, pos, chunks, accepts, hand);
    }
  }

  lemma {:induction false} StepQueue(buf: ReadBuffer, relay: Relay, hello: Message, chunks: seq<seq<Byte>>, accepts: nat, hand: Handler)
    requires InStep(buf, relay, hello, chunks, accepts, hand)
    ensures relay.Valid() && relay.queued == [hello] + Handed(hand, UpTo(FeedAll(chunks).delivered, accepts))
  {
  }

  lemma {:induction false} CountEvent(events: seq<Ready>, i: nat)
    requires i < |events|
    ensures Reads(events[..i + 1]) == Reads(events[..i]) + if events[i].Readable? && events[i].n > 0 then 1 else 0
    ensures LastWrites(events[..i + 1]) ==
            if events[i].Readable? then 0 else LastWrites(events[..i]) + if events[i].n > 0 then 1 else 0
  {
    assert events[..i + 1][..i] == events[..i];
  }

  /** Every turn that can do something does: there is room to read into, and a
      queued buffer is not empty. */
  lemma {:induction false} Moving(buf: ReadBuffer, relay: Relay, hello: Message, chunks: seq<seq<Byte>>, accepts: nat, hand: Handler)
    requires InStep(buf, relay, hello, chunks, accepts, hand)
    ensures buf.enabled ==> buf.len < buf.data.Length
    ensures relay.writing ==> relay.writeBufs != [] && relay.writeBufs[0].off < |relay.writeBufs[0].data|
    ensures Sendable(relay.queued) && (relay.writing ==> |relay.wire| < |Frames(relay.queued)|)
  {
    hide FeedAll, UpTo, Handed, Frames;
    assert |relay.wire + Pending(relay.writeBufs)| == |relay.wire| + |Pending(relay.writeBufs)|;
    assert relay.writing ==> Pending(relay.writeBufs) != [];
  }

  /** Reading goes on until the end or a refused message. */
  lemma {:induction false} StopsReading(buf: ReadBuffer, relay: Relay, hello: Message, ms: seq<Message>, pos: nat,
                                        chunks: seq<seq<Byte>>, accepts: nat, hand: Handler)
    requires InStep(buf, relay, hello, chunks, accepts, hand) && Sendable(ms) && pos <= |Frames(ms)|
    requires CleanRun(chunks) && Concat(chunks) == Frames(ms)[..pos]
    ensures !buf.enabled ==> accepts < |FeedAll(chunks).delivered|
  {
    hide FeedAll, UpTo, Handed, Frames, Concat, CleanRun, Parse;
    CutIndependence(chunks);
    TakenFromPrefix(ms, pos);
  }
}
