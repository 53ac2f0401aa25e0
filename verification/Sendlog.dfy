/** The sending client down to its write buffers: messages are packed into the
    first queued buffer while they fit, buffers are written in order and
    possibly in pieces, and a callback that empties the queue formats more.
    Seen from outside this is the client of the session model, and the bytes on
    the wire are the frames in the order in which they were formatted. */
module Sendlog {
  import opened Timespecs
  import opened IoLogs
  import opened Framing
  import opened ReadBuffers
  import opened WriteQueues
  import opened Session

  /** Where `fmt_client_message` puts a frame: behind the first buffer's bytes
      if they leave room, else into a buffer of its own at the end. */
  function Placed(bufs: seq<WriteBuf>, frame: seq<Byte>, spare: WriteBuf): seq<WriteBuf> {
    if bufs != [] && |bufs[0].data| + |frame| <= bufs[0].size
    then [bufs[0].(data := bufs[0].data + frame)] + bufs[1..]
    else bufs + [spare.(data := frame)]
  }

  /** How many buffers are queued after n bytes more: as many as before if the
      first has room for them, and else one more. */
  function NumBufs(bufs: seq<WriteBuf>, n: nat): nat {
    if |bufs| > 0 && |bufs[0].data| + n <= bufs[0].size then |bufs| else |bufs| + 1
  }

  /** With at most one buffer queued, placing a frame appends it. */
  lemma {:induction false} PlacedAppends(bufs: seq<WriteBuf>, frame: seq<Byte>, spare: WriteBuf)
    requires |bufs| <= 1 && (forall i :: 0 <= i < |bufs| ==> Queued(bufs[i]))
    requires Free(spare) && 0 < |frame| <= spare.size
    ensures var p := Placed(bufs, frame, spare);
            && |p| <= |bufs| + 1 && p != [] && (forall i :: 0 <= i < |p| ==> Queued(p[i]))
            && Pending(p) == Pending(bufs) + frame
  {
    var p := Placed(bufs, frame, spare);
    if bufs == [] {
      assert p == [spare.(data := frame)] && p[1..] == [];
    } else {
      assert bufs[1..] == [] && Pending(bufs) == bufs[0].data[bufs[0].off..];
      if |p| == 1 {
        assert p[1..] == [] && p[0].data[p[0].off..] == bufs[0].data[bufs[0].off..] + frame;
      } else {
        assert p[1..] == [spare.(data := frame)] && p[1..][1..] == [];
      }
    }
  }

  /** With any number of buffers queued, placing a frame appends it if and only
      if the first one has no room for it, or what is queued behind the first
      one could as well be sent after the frame; nothing queued is one case. */
  lemma {:induction false} PlacedAppendsIff(bufs: seq<WriteBuf>, frame: seq<Byte>, spare: WriteBuf)
    requires (forall i :: 0 <= i < |bufs| ==> Queued(bufs[i])) && Free(spare) && 0 < |frame| <= spare.size
    ensures var p := Placed(bufs, frame, spare);
            && (forall i :: 0 <= i < |p| ==> Queued(p[i]))
            && (Pending(p) == Pending(bufs) + frame <==>
                bufs == [] || |bufs[0].data| + |frame| > bufs[0].size
                || frame + Pending(bufs[1..]) == Pending(bufs[1..]) + frame)
  {
    if bufs != [] && |bufs[0].data| + |frame| <= bufs[0].size {
      var b, rest := bufs[0], Pending(bufs[1..]);
      var first := b.data[b.off..];
      PendingFirst(b.(data := b.data + frame), bufs[1..]);
      assert (b.data + frame)[b.off..] == first + frame;
      assert (first + frame) + rest == first + (frame + rest) && (first + rest) + frame == first + (rest + frame);
      assert (first + (frame + rest))[|first|..] == frame + rest && (first + (rest + frame))[|first|..] == rest + frame;
    } else {
      PendingAppend(bufs, spare.(data := frame));
    }
  }

  lemma {:induction false} NewBuffer(size: nat)
    ensures Free(WriteBuf(size, [], 0))
  {
  }

  /** With two buffers queued it would not: the frame overtakes the second. */
  lemma {:induction false} TwoBuffersReorder()
    ensures exists bufs: seq<WriteBuf>, frame: seq<Byte>, spare: WriteBuf ::
              && |bufs| == 2 && (forall i :: 0 <= i < |bufs| ==> Queued(bufs[i])) && Free(spare) && |frame| <= spare.size
              && var p := Placed(bufs, frame, spare);
                 (forall i :: 0 <= i < |p| ==> Queued(p[i])) && Pending(p) != Pending(bufs) + frame
  {
    var a, b, spare := WriteBuf(8, [1], 0), WriteBuf(8, [2], 0), WriteBuf(8, [], 0);
    var bufs, frame: seq<Byte> := [a, b], [3];
    var p := Placed(bufs, frame, spare);
    assert bufs[1..] == [b] && [b][1..] == [];
    assert b.data[b.off..] == [2] && Pending([b]) == [2] + Pending([]) == [2];
    assert bufs[0].data[bufs[0].off..] == a.data && Pending(bufs) == a.data + Pending(bufs[1..]);
    assert a.data + frame == [1, 3] && p == [a.(data := a.data + frame), b] && p[1..] == [b];
    assert p[0].data[p[0].off..] == [1, 3] && Pending(p) == [1, 3] + [2];
    assert (Pending(bufs) + frame)[1] == 2 && Pending(p)[1] == 3;
    assert Pending(p) != Pending(bufs) + frame;
  }

  /** How many whole frames the first n bytes of the stream hold. */
  function WholeFrames(ms: seq<Message>, n: nat): (k: nat)
    requires Sendable(ms)
    ensures k <= |ms|
  {
    if ms == [] || n < |Frame(ms[0])| then 0 else 1 + WholeFrames(ms[1..], n - |Frame(ms[0])|)
  }

  /** All frames are whole exactly when all bytes are there. */
  lemma {:induction false} AllWhole(ms: seq<Message>, n: nat)
    requires Sendable(ms) && n <= |Frames(ms)|
    ensures WholeFrames(ms, n) == |ms| <==> n == |Frames(ms)|
  {
    hide LengthWord;
    if ms != [] && n >= |Frame(ms[0])| {
      AllWhole(ms[1..], n - |Frame(ms[0])|);
    }
  }

  /** A frame formatted later does not change how many earlier ones are whole. */
  lemma {:induction false} WholeFramesAppend(ms: seq<Message>, m: Message, n: nat)
    requires Sendable(ms) && |m| <= MESSAGE_SIZE_MAX && n <= |Frames(ms)|
    ensures Sendable(ms + [m]) && WholeFrames(ms + [m], n) == WholeFrames(ms, n)
  {
    hide LengthWord;
    if ms == [] {
      assert ms + [m] == [m];
    } else {
      assert (ms + [m])[0] == ms[0] && (ms + [m])[1..] == ms[1..] + [m];
      if n >= |Frame(ms[0])| {
        WholeFramesAppend(ms[1..], m, n - |Frame(ms[0])|);
      }
    }
  }

  lemma {:induction false} WholeFramesMonotone(ms: seq<Message>, n: nat, n': nat)
    requires Sendable(ms) && n <= n'
    ensures WholeFrames(ms, n) <= WholeFrames(ms, n')
  {
    hide LengthWord;
    if ms != [] && n >= |Frame(ms[0])| {
      WholeFramesMonotone(ms[1..], n - |Frame(ms[0])|, n' - |Frame(ms[0])|);
    }
  }

  /** How a turn of the formatting loop ends. */
  datatype Turn = AtEnd | Skipped | Room | Full | Stopped

  ghost predicate TurnOf(log: seq<Record>, c: Client, turn: Turn, d: Client) {
    if turn.AtEnd? then c.next >= |log| && d == c.(state := SendExit, queue := c.queue + [Exit])
    else
      && c.next < |log|
      && var e := c.(elapsed := Plus(c.elapsed, log[c.next].delay), next := c.next + 1);
         if turn.Skipped? then IsSet(c.restart) && Cmp(c.restart, e.elapsed, Ge) && d == e
         else !(IsSet(c.restart) && Cmp(c.restart, e.elapsed, Ge))
              && d == e.(restart := ZERO, queue := e.queue + [Data(log[c.next])])
  }

  /** Formatting from c0 has come to c with `room` records formatted. */
  ghost predicate Reaches(log: seq<Record>, c0: Client, c: Client, room: nat) {
    forall r: nat :: FormatNext(log, c0, room + r) == FormatNext(log, c, r)
  }

  /** The turns make up the model's formatting function. */
  lemma {:induction false} FormatTurn(log: seq<Record>, c0: Client, room: nat, c: Client, turn: Turn, d: Client)
    requires Reaches(log, c0, c, room) && TurnOf(log, c, turn, d)
    ensures turn.AtEnd? || turn.Full? ==> FormatNext(log, c0, room) == d
    ensures turn.Skipped? ==> Reaches(log, c0, d, room)
    ensures turn.Room? ==> Reaches(log, c0, d, room + 1)
    ensures if turn.AtEnd? then d.state.SendExit? else c.next < |log| && d.next == c.next + 1 && d.state == c.state
  {
    assert FormatNext(log, c0, room + 0) == FormatNext(log, c, 0);
    if turn.Skipped? {
      forall r: nat ensures FormatNext(log, c0, room + r) == FormatNext(log, d, r) {
        assert FormatNext(log, c, r) == FormatNext(log, d, r);
      }
    } else if turn.Room? {
      forall r: nat ensures FormatNext(log, c0, (room + 1) + r) == FormatNext(log, d, r) {
        var k := r + 1;
        assert FormatNext(log, c, k) == FormatNext(log, d, r);
        assert FormatNext(log, c0, room + k) == FormatNext(log, c, k);
      }
    }
  }

  type Pack = ClientMsg -> Message

  function PackAll(pack: Pack, ms: seq<ClientMsg>): (r: seq<Message>)
    ensures |r| == |ms|
  {
    seq(|ms|, i requires 0 <= i < |ms| => pack(ms[i]))
  }

  lemma {:induction false} PackAppend(pack: Pack, ms: seq<ClientMsg>, m: ClientMsg)
    ensures PackAll(pack, ms + [m]) == PackAll(pack, ms) + [pack(m)]
  {
  }

  /** The client's clock after the records up to k. */
  function Clock(log: seq<Record>, c: Client, k: nat): Timespec
    requires c.next <= k <= |log|
  {
    if k == c.next then c.elapsed else Plus(Clock(log, c, k - 1), log[k - 1].delay)
  }

  predicate Fits(pack: Pack, m: ClientMsg) {
    |pack(m)| <= MESSAGE_SIZE_MAX
  }

  /** Why a client that began formatting in c cannot get past record k, or past
      the end of the log: the record is beyond a stopping point, or it is not
      before the restart point and its message is too large. */
  ghost predicate Halts(log: seq<Record>, pack: Pack, stop: Timespec, c: Client, k: nat)
    requires c.next <= k <= |log|
  {
    if k == |log| then !Fits(pack, Exit)
    else
      var t := Clock(log, c, k + 1);
      || (IsSet(stop) && Cmp(t, stop, Gt))
      || (!(IsSet(c.restart) && Cmp(c.restart, t, Ge)) && !Fits(pack, Data(log[k])))
  }

  ghost predicate Clear(log: seq<Record>, pack: Pack, stop: Timespec, c: Client, k: nat)
    requires c.next <= k <= |log|
  {
    forall j :: c.next <= j < k ==> !Halts(log, pack, stop, c, j)
  }

  /** Formatting from c has read up to `next`: with success, or with failure at
      the last record read, or at the end. */
  ghost predicate Formatting(log: seq<Record>, pack: Pack, stop: Timespec, c: Client, ok: bool, state: ClientState, next: nat) {
    && c.next <= next <= |log| && (state.SendExit? ==> next == |log|)
    && if ok then Clear(log, pack, stop, c, next) && (state.SendExit? ==> !Halts(log, pack, stop, c, next))
       else
         var k := if state.SendExit? then next else next - 1;
         c.next <= k && Clear(log, pack, stop, c, k) && Halts(log, pack, stop, c, k)
  }

  /** A client without its queue, about to format. */
  function Standing(c: Client): Client {
    c.(state := SendIo, queue := [])
  }

  /** States in which an empty queue makes the client format records. */
  predicate Sends(s: ClientState) {
    s.SendAccept? || s.SendRestart? || s.SendIo?
  }

  /** Nothing can halt a client without a stopping point whose messages fit. */
  ghost predicate Unstoppable(log: seq<Record>, pack: Pack, stop: Timespec) {
    !IsSet(stop) && Fits(pack, Exit) && forall k :: 0 <= k < |log| ==> Fits(pack, Data(log[k]))
  }

  lemma {:induction false} UnstoppableSucceeds(log: seq<Record>, pack: Pack, stop: Timespec, c: Client, ok: bool, state: ClientState, next: nat)
    requires Formatting(log, pack, stop, c, ok, state, next)
    ensures Unstoppable(log, pack, stop) ==> ok
  {
    hide Clear, Clock;
  }

  /** Formatting from c0 has got to c without failure. */
  ghost predicate Came(log: seq<Record>, c0: Client, c: Client) {
    && c0.next <= c.next <= |log| && c.elapsed == Clock(log, c0, c.next) && Normal(c.elapsed)
    && (c.restart == c0.restart || (c.restart == ZERO && !Cmp(c0.restart, c.elapsed, Ge)))
  }

  /** Whether the next record is skipped can be told from the restart point at
      the beginning, because the clock does not go back. */
  lemma {:induction false} SkipsBefore(c0: Client, c: Client, d: Timespec)
    requires Normal(c0.restart) && Normal(c.elapsed) && Normal(d) && c.restart == ZERO && !Cmp(c0.restart, c.elapsed, Ge)
    ensures !Cmp(c0.restart, Plus(c.elapsed, d), Ge)
  {
    CmpIsOrderOfInstants(c0.restart, c.elapsed, Ge);
    CmpIsOrderOfInstants(c0.restart, Plus(c.elapsed, d), Ge);
  }

  lemma {:induction false} HaltsHere(log: seq<Record>, pack: Pack, stop: Timespec, c0: Client, c: Client)
    requires Came(log, c0, c) && NormalLog(Lines(log)) && Normal(c0.restart)
    ensures Halts(log, pack, stop, c0, c.next) <==> Halts(log, pack, stop, c, c.next)
  {
    hide Plus, Cmp, Normal, IsSet, NormalLog;
    if c.next < |log| {
      var d := log[c.next].delay;
      NormalDelay(log, c.next);
      assert Clock(log, c0, c.next + 1) == Plus(c.elapsed, d) == Clock(log, c, c.next + 1) by {
        assert Clock(log, c, c.next) == c.elapsed;
      }
      if c.restart != c0.restart {
        SkipsBefore(c0, c, d);
        assert !IsSet(c.restart) by { ZeroIsUnset(); }
      }
    }
  }

  lemma {:induction false} HaltsNext(log: seq<Record>, pack: Pack, stop: Timespec, c: Client)
    requires c.next <= |log|
    ensures c.next == |log| ==> (Halts(log, pack, stop, c, c.next) <==> !Fits(pack, Exit))
    ensures c.next < |log| ==>
              var t := Plus(c.elapsed, log[c.next].delay);
              (Halts(log, pack, stop, c, c.next) <==>
               || (IsSet(stop) && Cmp(t, stop, Gt))
               || (!(IsSet(c.restart) && Cmp(c.restart, t, Ge)) && !Fits(pack, Data(log[c.next]))))
  {
    hide Plus, Cmp, IsSet;
    assert Clock(log, c, c.next) == c.elapsed;
  }

  lemma {:induction false} ZeroIsUnset()
    ensures !IsSet(ZERO)
  {
  }

  lemma {:induction false} NormalDelay(log: seq<Record>, k: nat)
    requires k < |log| && NormalLog(Lines(log))
    ensures Normal(log[k].delay)
  {
    assert Lines(log)[k].delay == log[k].delay;
  }

  lemma {:induction false} CameOn(log: seq<Record>, pack: Pack, stop: Timespec, c0: Client, c: Client, turn: Turn, d: Client)
    requires Came(log, c0, c) && NormalLog(Lines(log)) && Normal(c0.restart)
    requires Clear(log, pack, stop, c0, c.next)
    requires TurnOf(log, c, turn, d) && !turn.AtEnd? && !Halts(log, pack, stop, c, c.next)
    ensures Came(log, c0, d) && Clear(log, pack, stop, c0, d.next)
  {
    HaltsHere(log, pack, stop, c0, c);
    hide Cmp, NormalLog, Halts, Nanos;
    NormalDelay(log, c.next);
    if !turn.Skipped? && c.restart != c0.restart {
      SkipsBefore(c0, c, log[c.next].delay);
    }
  }

  /** Where the formatting loop stands between two turns. */
  ghost predicate Underway(log: seq<Record>, pack: Pack, stop: Timespec, c0: Client, c: Client, room: nat) {
    && NormalLog(Lines(log)) && Normal(c0.restart) && c0.next <= c.next <= |log|
    && Reaches(log, c0, c, room) && Came(log, Standing(c0), c) && Clear(log, pack, stop, Standing(c0), c.next)
  }

  lemma {:induction false} UnderwayBegins(log: seq<Record>, pack: Pack, stop: Timespec, c: Client)
    requires NormalLog(Lines(log)) && Normal(c.restart) && Normal(c.elapsed) && c.next <= |log|
    ensures Underway(log, pack, stop, c, c, 0)
  {
    hide NormalLog, Halts, FormatNext;
  }

  lemma {:induction false} TurnStep(log: seq<Record>, pack: Pack, stop: Timespec, c0: Client, room: nat, c: Client, turn: Turn, d: Client)
    requires Underway(log, pack, stop, c0, c, room) && c.state.SendIo?
    requires if turn.Stopped? then Halts(log, pack, stop, c, c.next)
             else !Halts(log, pack, stop, c, c.next) && TurnOf(log, c, turn, d)
    requires if c.next == |log| then d.next == |log| && d.state.SendExit? else d.next == c.next + 1 && d.state.SendIo?
    ensures turn.Stopped? ==> Formatting(log, pack, stop, Standing(c0), false, d.state, d.next)
    ensures turn.AtEnd? || turn.Full? ==>
              FormatNext(log, c0, room) == d && Formatting(log, pack, stop, Standing(c0), true, d.state, d.next)
    ensures turn.Skipped? || turn.Room? ==> Underway(log, pack, stop, c0, d, if turn.Room? then room + 1 else room)
  {
    hide FormatNext, Reaches, Halts, Came, Clear, NormalLog, Normal, TurnOf;
    HaltsHere(log, pack, stop, Standing(c0), c);
    if !turn.Stopped? {
      FormatTurn(log, c0, room, c, turn, d);
      if !turn.AtEnd? {
        CameOn(log, pack, stop, Standing(c0), c, turn, d);
      }
    }
  }

  /** The closure of one client. */
  class Sender {
    const log: seq<Record>
    const pack: Pack
    const stopAfter: Timespec
    const first: nat
    var state: ClientState
    var restart: Timespec
    var elapsed: Timespec
    var committed: Timespec
    var next: nat
    var writeBufs: seq<WriteBuf>
    var freeBufs: seq<WriteBuf>
    var live: bool
    var reading: bool
    ghost var formatted: seq<ClientMsg>
    ghost var wire: seq<Byte>

    /** Order is kept: what was written and what is queued are the frames in
        the order in which they were formatted. */
    ghost predicate Ordered()
      reads this`next, this`elapsed, this`restart, this`writeBufs, this`freeBufs, this`formatted, this`wire
    {
      && next <= |log| && Normal(elapsed) && Normal(restart) && NormalLog(Lines(log))
      && (forall i :: 0 <= i < |writeBufs| ==> Queued(writeBufs[i]))
      && (forall i :: 0 <= i < |freeBufs| ==> Free(freeBufs[i]))
      && Sendable(PackAll(pack, formatted))
      && wire + Pending(writeBufs) == Frames(PackAll(pack, formatted))
    }

    /** At most two buffers are queued, and one before the server's hello; a
        state with something left to send has something queued. */
    ghost predicate Valid()
      reads this`state, this`next, this`elapsed, this`restart, this`writeBufs, this`freeBufs, this`formatted, this`wire
    {
      && Ordered() && |writeBufs| <= 2
      && (state.RecvHello? ==> |writeBufs| <= 1)
      && (state.SendAccept? || state.SendRestart? || state.SendIo? || state.SendExit? ==> writeBufs != [])
    }

    /** Messages not yet wholly on the wire. */
    ghost function Unsent(): seq<ClientMsg>
      reads this
      requires Sendable(PackAll(pack, formatted))
    {
      formatted[WholeFrames(PackAll(pack, formatted), |wire|)..]
    }

    /** This client as the session model sees it. */
    ghost function View(): Client
      reads this
      requires Sendable(PackAll(pack, formatted))
    {
      Client(state, restart, elapsed, committed, first, next, Unsent())
    }

    constructor (log: seq<Record>, pack: Pack, stopAfter: Timespec, c: Client)
      requires NormalLog(Lines(log)) && c.next <= |log| && Normal(c.elapsed) && Normal(c.restart)
      requires c.state.RecvHello? && c.queue == [Hello] && |pack(Hello)| <= MESSAGE_SIZE_MAX
      ensures this.log == log && this.pack == pack && this.stopAfter == stopAfter && Valid() && live && reading && View() == c
    {
      this.log, this.pack, this.stopAfter, this.first := log, pack, stopAfter, c.first;
      state, restart, elapsed, committed, next := RecvHello, c.restart, c.elapsed, c.committed, c.next;
      writeBufs, freeBufs := [], [WriteBuf(64 * 1024, [], 0)];
      formatted, wire, live, reading := [], [], true, true;
      new;
      assert PackAll(pack, formatted) == [];
      var ok := FmtClientMessage(Hello);
    }

    /** `get_free_buf` */
    method GetFreeBuf(len: nat) returns (b: WriteBuf)
      requires forall i :: 0 <= i < |freeBufs| ==> Free(freeBufs[i])
      modifies this`freeBufs
      ensures Free(b) && len <= b.size
      ensures forall i :: 0 <= i < |freeBufs| ==> Free(freeBufs[i])
    {
      if freeBufs != [] {
        b, freeBufs := freeBufs[0], freeBufs[1..];
      } else {
        b := WriteBuf(0, [], 0);
      }
      if len > b.size {
        b := b.(size := Pow2Roundup(len));
      }
    }

    /** `fmt_client_message`.  Nothing is placed while two buffers are queued. */
    method FmtClientMessage(msg: ClientMsg) returns (ok: bool)
      requires Ordered() && |writeBufs| <= 1
      modifies this`writeBufs, this`freeBufs, this`formatted
      ensures Ordered() && ok == (|pack(msg)| <= MESSAGE_SIZE_MAX)
      ensures ok ==> |writeBufs| == NumBufs(old(writeBufs), |pack(msg)| + 4) > 0 && Unsent() == old(Unsent()) + [msg]
      ensures !ok ==> writeBufs == old(writeBufs) && formatted == old(formatted)
    {
      var m := pack(msg);
      if |m| > MESSAGE_SIZE_MAX {
        return false;
      }
      hide WholeFrames, Normal, Frames, Frame, Pending, Queued, Free, PackAll;
      Place(Frame(m));
      AppendFrame(PackAll(pack, formatted), m, wire, old(Pending(writeBufs)));
      PackAppend(pack, formatted, msg);
      formatted := formatted + [msg];
      return true;
    }

    /** Put a frame behind the first buffer's bytes, or into a new buffer. */
    method Place(frame: seq<Byte>)
      requires |writeBufs| <= 1 && frame != []
      requires forall i :: 0 <= i < |writeBufs| ==> Queued(writeBufs[i])
      requires forall i :: 0 <= i < |freeBufs| ==> Free(freeBufs[i])
      modifies this`writeBufs, this`freeBufs
      ensures forall i :: 0 <= i < |writeBufs| ==> Queued(writeBufs[i])
      ensures forall i :: 0 <= i < |freeBufs| ==> Free(freeBufs[i])
      ensures |writeBufs| == NumBufs(old(writeBufs), |frame|) > 0 && Pending(writeBufs) == Pending(old(writeBufs)) + frame
    {
      hide Pending, Queued, Free;
      if writeBufs != [] && |writeBufs[0].data| + |frame| <= writeBufs[0].size {
        NewBuffer(|frame|);
        PlacedAppends(writeBufs, frame, WriteBuf(|frame|, [], 0));
        writeBufs := [writeBufs[0].(data := writeBufs[0].data + frame)] + writeBufs[1..];
      } else {
        var b := GetFreeBuf(|frame|);
        PlacedAppends(writeBufs, frame, b);
        writeBufs := writeBufs + [b.(data := frame)];
      }
    }

    /** One turn of the loop in `fmt_next_iolog`: read a line, format it. */
    method FmtRecord() returns (turn: Turn)
      requires Ordered() && |writeBufs| <= 1 && state.SendIo?
      modifies this`state, this`restart, this`elapsed, this`next, this`writeBufs, this`freeBufs, this`formatted
      ensures Ordered() && |writeBufs| <= 2 && Sendable(PackAll(pack, formatted))
      ensures turn.Stopped? <==> Halts(log, pack, stopAfter, old(View()), old(next))
      ensures turn.Stopped? ==> formatted == old(formatted)
      ensures old(next) < |log| && IsSet(stopAfter) && Cmp(Plus(old(elapsed), log[old(next)].delay), stopAfter, Gt) ==> elapsed == old(elapsed)
      ensures turn.Stopped? || (TurnOf(log, old(View()), turn, View()) && (turn.Skipped? || writeBufs != []))
      ensures state == (if old(next) == |log| then SendExit else SendIo) && next == if old(next) == |log| then |log| else old(next) + 1
      ensures (turn.Skipped? || turn.Room? ==> |writeBufs| <= 1) && (turn.Full? ==> |writeBufs| == 2)
    {
      hide FormatNext, Cmp, Pending, WholeFrames, Frames, Queued, Free, PackAll, Sendable, Halts, Clock, NormalLog;
      HaltsNext(log, pack, stopAfter, View());
      if next == |log| {
        state := SendExit;
        var ok := FmtClientMessage(Exit);
        return if ok then AtEnd else Stopped;
      }
      var r := log[next];
      NormalDelay(log, next);
      elapsed := Add(elapsed, r.delay);
      next := next + 1;
      if IsSet(stopAfter) && Cmp(elapsed, stopAfter, Gt) {
        elapsed := Sub(elapsed, r.delay);
        NanosInjective(elapsed, old(elapsed));
        return Stopped;
      }
      if IsSet(restart) {
        if Cmp(restart, elapsed, Ge) {
          return Skipped;
        }
        restart := ZERO;
      }
      var ok := FmtClientMessage(Data(r));
      return if !ok then Stopped else if |writeBufs| > 1 then Full else Room;
    }

    /** `fmt_next_iolog`: fill one buffer, and stop when a second is begun. */
    method FmtNextIolog() returns (ok: bool, ghost room: nat)
      requires Ordered() && writeBufs == [] && state.SendIo?
      modifies this`state, this`restart, this`elapsed, this`next, this`writeBufs, this`freeBufs, this`formatted
      ensures Ordered() && |writeBufs| <= 2
      ensures ok ==> writeBufs != [] && (state.SendIo? || state.SendExit?) && View() == FormatNext(log, old(View()), room)
      ensures ok && state.SendIo? ==> |writeBufs| == 2
      ensures Formatting(log, pack, stopAfter, Standing(old(View())), ok, state, next)
      ensures Unstoppable(log, pack, stopAfter) ==> ok
    {
      ghost var c0 := View();
      UnderwayBegins(log, pack, stopAfter, c0);
      hide Underway, FormatNext, Ordered, TurnOf, WholeFrames, PackAll, Sendable, Halts, Unstoppable, Formatting;
      room := 0;
      while true
        invariant Ordered() && |writeBufs| <= 1 && state.SendIo? && Sendable(PackAll(pack, formatted))
        invariant Underway(log, pack, stopAfter, c0, View(), room) && next <= |log|
        decreases |log| - next
      {
        ghost var c := View();
        var turn := FmtRecord();
        TurnStep(log, pack, stopAfter, c0, room, c, turn, View());
        match turn {
          case Stopped =>
            UnstoppableSucceeds(log, pack, stopAfter, Standing(c0), false, state, next);
            return false, 0;
          case AtEnd => return true, room;
          case Full => return true, room;
          case Room => room := room + 1;
          case Skipped =>
        }
      }
    }

    /** `client_message_completion` */
    method Completion() returns (ok: bool, ghost room: nat)
      requires Ordered() && writeBufs == []
      modifies this`state, this`restart, this`elapsed, this`next, this`writeBufs, this`freeBufs, this`formatted
      ensures ok ==> Valid() && View() == Session.Completion(log, old(View()), room)
      ensures old(state).RecvHello? || old(state).SendExit? ==> ok
      ensures old(state).Closing? || old(state).Finished? || old(state).Failed? ==> !ok
      ensures Sends(old(state)) ==> Formatting(log, pack, stopAfter, Standing(old(View())), ok, state, next)
      ensures Sends(old(state)) && Unstoppable(log, pack, stopAfter) ==> ok
      ensures ok && state.SendIo? ==> |writeBufs| == 2
    {
      hide Formatting, Unstoppable, Halts;
      ok, room := true, 0;
      match state {
        case RecvHello =>
        case SendAccept => state := SendIo; ok, room := FmtNextIolog();
        case SendRestart => state := SendIo; ok, room := FmtNextIolog();
        case SendIo => ok, room := FmtNextIolog();
        case SendExit => state := Closing;
        case _ => ok := false;
      }
    }

    /** n bytes of the first buffer have been written. */
    method Wrote(n: nat) returns (ghost count: nat)
      requires Ordered() && writeBufs != [] && n <= |writeBufs[0].data| - writeBufs[0].off
      modifies this`wire, this`writeBufs, this`freeBufs
      ensures Ordered() && |writeBufs| <= old(|writeBufs|)
      ensures wire == old(wire) + old(writeBufs[0].data[writeBufs[0].off..writeBufs[0].off + n])
      ensures count <= |old(Unsent())| && Unsent() == old(Unsent())[count..]
      ensures writeBufs == [] <==> Unsent() == []
      ensures writeBufs == [] <==> old(|writeBufs|) == 1 && n == old(|writeBufs[0].data| - writeBufs[0].off)
    {
      hide Pending, WholeFrames, Frames, Normal, Sendable;
      WroteBytes(PackAll(pack, formatted), wire, writeBufs, n);
      count := WholeFrames(PackAll(pack, formatted), |wire| + n) - WholeFrames(PackAll(pack, formatted), |wire|);
      var b := writeBufs[0];
      wire := wire + b.data[b.off..b.off + n];
      if b.off + n == |b.data| {
        writeBufs, freeBufs := writeBufs[1..], freeBufs + [b.(data := [], off := 0)];
      } else {
        writeBufs := [b.(off := b.off + n)] + writeBufs[1..];
      }
    }

    /** The write callback, when write(2) takes n bytes of the first buffer. */
    method Write(n: nat) returns (ghost count: nat, ghost room: nat)
      requires Valid() && live && writeBufs != [] && n <= |writeBufs[0].data| - writeBufs[0].off
      modifies this
      ensures wire == old(wire) + old(writeBufs[0].data[writeBufs[0].off..writeBufs[0].off + n])
      ensures live ==> Valid()
      ensures live ==> count <= |old(Unsent())| && View() == Send(log, old(View()), count, room)
      ensures reading == (old(reading) && live)
      ensures old(|writeBufs|) > 1 || n < old(|writeBufs[0].data| - writeBufs[0].off) ==> live && state == old(state) && formatted == old(formatted)
      ensures old(|writeBufs|) == 1 && n == old(|writeBufs[0].data| - writeBufs[0].off) ==>
                && (old(state).RecvHello? || old(state).SendExit? ==> live)
                && (old(state).Closing? || old(state).Finished? || old(state).Failed? ==> !live)
                && (Sends(old(state)) ==>
                      && Formatting(log, pack, stopAfter, Standing(old(View())), live, state, next)
                      && (live && state.SendIo? ==> |writeBufs| == 2))
      ensures Unstoppable(log, pack, stopAfter) && !old(state).Closing? && !old(state).Finished? && !old(state).Failed? ==> live
    {
      hide Formatting, Unstoppable, Halts, Ordered, WholeFrames, PackAll, Sendable, FormatNext;
      room := 0;
      count := Wrote(n);
      if writeBufs == [] {
        live, room := Completion();
      }
      reading := reading && live;
    }

    /** `handle_server_message`, for a message that was unpacked.  One that is
        refused ends reading only; what is queued is still written. */
    method HandleServerMessage(m: ServerMsg)
      requires Valid() && live && reading
      modifies this
      ensures live && Ordered() && wire == old(wire)
      ensures !reading ==> writeBufs == old(writeBufs) && formatted == old(formatted)
      ensures reading || m.Error? || (m.Commit? && state.Finished?) ==> Valid() && View() == ClientHears(old(View()), m)
      ensures m.Error? ==> !reading && state.Failed? && writeBufs == old(writeBufs) && formatted == old(formatted)
      ensures m.ServerHello? ==> reading == (old(state).RecvHello? && Fits(pack, if IsSet(restart) then Restart(restart) else Accept))
      ensures m.Commit? ==> reading == (!BeforeIo(old(state)) && !Cmp(elapsed, m.point, Eq))
      ensures m.LogId? ==> reading
    {
      hide WholeFrames, PackAll, Sendable;
      match m {
        case ServerHello => HearHello();
        case LogId =>
        case Commit(p) => HearCommit(p);
        case Error => state, reading := Failed, false;
      }
    }

    method HearHello()
      requires Valid() && live && reading
      modifies this
      ensures live && Ordered() && wire == old(wire)
      ensures !reading ==> writeBufs == old(writeBufs) && formatted == old(formatted)
      ensures reading ==> Valid() && View() == ClientHears(old(View()), ServerHello)
      ensures restart == old(restart) && reading == (old(state).RecvHello? && Fits(pack, if IsSet(restart) then Restart(restart) else Accept))
    {
      hide WholeFrames, PackAll, Sendable, Normal, NormalLog;
      var msg := if IsSet(restart) then Restart(restart) else Accept;
      reading := state.RecvHello?;
      if reading {
        state := if IsSet(restart) then SendRestart else SendAccept;
        reading := FmtClientMessage(msg);
      }
    }

    /** `handle_commit_point`, and the check for the end after it. */
    method HearCommit(p: Timespec)
      requires Valid() && live && reading
      modifies this
      ensures live && Ordered() && wire == old(wire) && writeBufs == old(writeBufs) && formatted == old(formatted)
      ensures reading || state.Finished? ==> Valid() && View() == ClientHears(old(View()), Commit(p))
      ensures elapsed == old(elapsed) && reading == (!BeforeIo(old(state)) && !Cmp(elapsed, p, Eq))
    {
      hide WholeFrames, PackAll, Sendable;
      reading := !BeforeIo(state);
      if reading {
        committed := p;
      }
      if Cmp(elapsed, committed, Eq) {
        state, reading := Finished, false;
      }
    }
  }

  /** Written bytes move from the queue to the wire, and the queue is empty
      exactly when every frame is whole on the wire. */
  lemma {:induction false} WroteBytes(ms: seq<Message>, wire: seq<Byte>, bufs: seq<WriteBuf>, n: nat)
    requires bufs != [] && (forall i :: 0 <= i < |bufs| ==> Queued(bufs[i])) && n <= |bufs[0].data| - bufs[0].off
    requires Sendable(ms) && wire + Pending(bufs) == Frames(ms)
    ensures var after := Advanced(bufs, n);
            && (forall i :: 0 <= i < |after| ==> Queued(after[i]))
            && wire + bufs[0].data[bufs[0].off..bufs[0].off + n] + Pending(after) == Frames(ms)
            && (after == [] <==> WholeFrames(ms, |wire| + n) == |ms|)
    ensures WholeFrames(ms, |wire|) <= WholeFrames(ms, |wire| + n)
  {
    hide Frames, WholeFrames, Queued, Pending, Advanced;
    AdvancedPending(bufs, n);
    WholeFramesMonotone(ms, |wire|, |wire| + n);
    var chunk, rest := bufs[0].data[bufs[0].off..bufs[0].off + n], Pending(Advanced(bufs, n));
    assert wire + chunk + rest == wire + (chunk + rest);
    AllWhole(ms, |wire| + n);
  }

  lemma {:induction false} AppendFrame(ms: seq<Message>, m: Message, wire: seq<Byte>, pending: seq<Byte>)
    requires Sendable(ms) && |m| <= MESSAGE_SIZE_MAX && wire + pending == Frames(ms)
    ensures Sendable(ms + [m]) && wire + (pending + Frame(m)) == Frames(ms + [m])
    ensures WholeFrames(ms + [m], |wire|) == WholeFrames(ms, |wire|)
  {
    hide LengthWord, WholeFrames;
    FramesAppend(ms, [m]);
    assert Frames([m]) == Frame(m) + Frames([]);
    hide Frame;
    assert wire + (pending + Frame(m)) == (wire + pending) + Frame(m);
    hide Frames;
    WholeFramesAppend(ms, m, |wire|);
  }
}
