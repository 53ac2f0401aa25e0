/** Moving a command's input and output: each I/O buffer has a reader and a
    writer event, and callbacks that fill, drain and close them. */
module IoPumps {
  import opened IoLogs

  const BUFFER_SIZE := 64 * 1024

  datatype ReadResult = Data(bytes: seq<Byte>) | Eof | ReadAgain

  datatype WriteResult = Wrote(n: nat) | PipeClosed | WriteAgain | WriteBroken

  /** read(2) into the free part of a buffer. */
  function Filled(buf: seq<Byte>, len: nat, bytes: seq<Byte>): seq<Byte>
    requires len + |bytes| <= |buf|
  {
    buf[..len] + bytes + buf[len + |bytes|..]
  }

  lemma {:induction false} Appended(buf: seq<Byte>, off: nat, len: nat, bytes: seq<Byte>)
    requires off <= len && len + |bytes| <= |buf|
    ensures var b := Filled(buf, len, bytes);
            |b| == |buf| && b[off..len + |bytes|] == buf[off..len] + bytes
  {
  }

  lemma {:induction false} Regroup(a: seq<Byte>, b: seq<Byte>, c: seq<Byte>)
    ensures (a + b) + c == a + (b + c) && a <= (a + b) + c
  {
  }

  /** A buffer between two descriptors.  An event is freed, or present and
      disabled, or enabled.  `input` is what was read for the writer, `output`
      what was written. */
  class IoBuffer {
    const rfd: int
    const wfd: int
    const isOutput: bool
    const userTty: bool
    var hasReader: bool
    var hasWriter: bool
    var reading: bool
    var writing: bool
    var buf: seq<Byte>
    var off: nat
    var len: nat
    ghost var input: seq<Byte>
    ghost var output: seq<Byte>
    ghost var refused: bool
    ghost var closedAtEof: bool

    ghost predicate Shape()
      reads this
    {
      && |buf| == BUFFER_SIZE && off <= len <= BUFFER_SIZE
      && (reading ==> hasReader && len < BUFFER_SIZE)
      && (hasWriter ==> input == output + buf[off..len] && (off == len ==> len == 0))
      && output <= input
      && (closedAtEof ==> output == input)
      && (closedAtEof || refused ==> !hasWriter)
    }

    /** Nothing is lost or reordered, the reader has room, the writer waits
        exactly for data, and as long as both ends are there one is active. */
    ghost predicate Ok()
      reads this
    {
      && Shape()
      && (writing <==> hasWriter && off < len)
      && (hasReader && hasWriter && !userTty ==> reading || writing)
    }

    /** No writer is scheduled without data. */
    ghost predicate Schedulable()
      reads this
    {
      Shape() && (writing ==> hasWriter && off < len)
    }

    /** The reader runs if there is room, the terminal's only in raw mode, and
        if it did before. */
    ghost predicate Scheduled(raw: bool, before: bool)
      reads this
    {
      Ok() && reading == (before || (hasReader && (raw || !userTty) && len < BUFFER_SIZE))
    }

    /** `io_buf_new`; the events are not scheduled yet. */
    constructor (rfd: int, wfd: int, isOutput: bool, userTty: bool)
      ensures Shape() && !reading && !writing && hasReader && hasWriter && input == output == [] && off == len == 0
      ensures this.rfd == rfd && this.wfd == wfd && this.isOutput == isOutput && this.userTty == userTty
    {
      this.rfd, this.wfd, this.isOutput, this.userTty := rfd, wfd, isOutput, userTty;
      hasReader, hasWriter, reading, writing := true, true, false, false;
      buf, off, len := seq(BUFFER_SIZE, _ => 0), 0, 0;
      input, output, refused, closedAtEof := [], [], false, false;
    }

    /** One turn of the loop in `add_io_events`. */
    method Schedule(raw: bool)
      requires Schedulable()
      modifies this`reading, this`writing
      ensures Scheduled(raw, old(reading))
    {
      if hasReader && (raw || !userTty) {
        if len != BUFFER_SIZE {
          reading := true;
        }
      }
      if hasWriter {
        if len > off {
          writing := true;
        }
      }
    }

    /** One turn of the loop in `ev_free_by_fd`. */
    method Free(fd: int)
      modifies this`hasReader, this`hasWriter, this`reading, this`writing
      ensures hasReader == (old(hasReader) && rfd != fd) && hasWriter == (old(hasWriter) && wfd != fd)
      ensures old(Ok()) ==> Ok()
    {
      if hasReader {
        if rfd == fd {
          hasReader, reading := false, false;
        }
      }
      if hasWriter {
        if wfd == fd {
          hasWriter, writing := false, false;
        }
      }
    }

    /** New bytes: the plugins see them first.  Output they refuse is dropped
        together with the writer, before the buffer counts it. */
    method Take(bytes: seq<Byte>, accepted: bool)
      requires Ok() && reading && 0 < |bytes| <= BUFFER_SIZE - len
      modifies this
      ensures Ok() && hasReader && output == old(output)
      ensures hasWriter == (old(hasWriter) && (accepted || !isOutput))
      ensures input == if hasWriter then old(input) + bytes else old(input)
      ensures refused == (old(refused) || (isOutput && !accepted))
      ensures len == |bytes| + (if isOutput && !accepted then 0 else old(len)) && reading == (len < BUFFER_SIZE)
    {
      if !accepted && isOutput {
        hasWriter, writing, off, len := false, false, 0, 0;
        refused := true;
      }
      Count(bytes);
    }

    /** The rest of the read callback, when the bytes are in the buffer. */
    method Count(bytes: seq<Byte>)
      requires Shape() && reading && |bytes| <= BUFFER_SIZE - len && (writing <==> hasWriter && off < len) && 0 < |bytes|
      modifies this`buf, this`len, this`reading, this`writing, this`input
      ensures Ok() && input == if hasWriter then old(input) + bytes else old(input)
      ensures len == old(len) + |bytes| && reading == (len < BUFFER_SIZE)
    {
      ghost var b, n := Filled(buf, len, bytes), len + |bytes|;
      Appended(buf, off, len, bytes);
      Regroup(output, buf[off..len], bytes);
      hide Filled;
      buf := Filled(buf, len, bytes);
      len := len + |bytes|;
      if len == BUFFER_SIZE {
        reading := false;
      }
      if hasWriter {
        input := input + bytes;
        writing := true;
      }
    }

    /** n bytes were written. */
    method Drop(n: nat, alive: bool)
      requires Ok() && writing && n <= len - off
      modifies this
      ensures Ok() && input == old(input) && output == old(output) + old(buf[off..off + n])
      ensures hasReader == old(hasReader) && hasWriter && (off == len ==> output == input)
      ensures reading == (old(reading) || (hasReader && len < BUFFER_SIZE && (!userTty || alive)))
    {
      ghost var chunk := buf[off..off + n];
      assert buf[off..len] == chunk + buf[off + n..len];
      assert input == (output + chunk) + buf[off + n..len];
      output := output + chunk;
      off := off + n;
      if off == len {
        off, len, writing := 0, 0, false;
        assert buf[off..len] == [];
      }
      if hasReader && len != BUFFER_SIZE {
        if !userTty || alive {
          reading := true;
        }
      }
    }
  }

  datatype Event = Readable(k: nat, r: ReadResult, accepted: bool) | Writable(k: nat, w: WriteResult)

  /** Two buffers of which the first writes to no descriptor of the second.
      Closing a descriptor drops every writer on it, whatever it still holds. */
  predicate Apart(b: IoBuffer, k: IoBuffer) {
    b.wfd != k.wfd && b.wfd != k.rfd
  }

  /** All I/O buffers of a command. */
  class IoPump {
    const iobs: seq<IoBuffer>
    var alive: bool

    ghost predicate Distinct() {
      forall i, j :: 0 <= i < j < |iobs| ==> iobs[i] != iobs[j]
    }

    ghost predicate Valid()
      reads iobs
    {
      Distinct() && forall i :: 0 <= i < |iobs| ==> iobs[i].Ok()
    }

    /** `add_io_events` */
    method AddIoEvents(raw: bool)
      requires Distinct() && forall i :: 0 <= i < |iobs| ==> iobs[i].Schedulable()
      modifies iobs
      ensures Valid() && forall i :: 0 <= i < |iobs| ==> iobs[i].Scheduled(raw, old(iobs[i].reading))
      ensures forall b <- iobs :: unchanged(b`buf, b`off, b`len, b`input, b`output, b`hasReader, b`hasWriter)
    {
      for i := 0 to |iobs|
        invariant forall j :: 0 <= j < i ==> iobs[j].Scheduled(raw, old(iobs[j].reading))
        invariant forall j :: i <= j < |iobs| ==> iobs[j].Schedulable() && iobs[j].reading == old(iobs[j].reading)
        invariant forall b <- iobs :: unchanged(b`buf, b`off, b`len, b`input, b`output, b`hasReader, b`hasWriter)
      {
        hide IoBuffer.Schedulable, IoBuffer.Scheduled;
        iobs[i].Schedule(raw);
      }
    }

    /** `ev_free_by_fd` */
    method FreeByFd(fd: int)
      requires Valid()
      modifies iobs
      ensures Valid()
      ensures forall b <- iobs :: b.hasReader == (old(b.hasReader) && b.rfd != fd) && b.hasWriter == (old(b.hasWriter) && b.wfd != fd)
      ensures forall b <- iobs :: unchanged(b`buf, b`off, b`len, b`input, b`output, b`refused, b`closedAtEof)
    {
      for i := 0 to |iobs|
        invariant forall j :: 0 <= j < |iobs| ==> iobs[j].Ok()
        invariant forall b <- iobs[..i] :: b.hasReader == (old(b.hasReader) && b.rfd != fd) && b.hasWriter == (old(b.hasWriter) && b.wfd != fd)
        invariant forall b <- iobs[i..] :: b.hasReader == old(b.hasReader) && b.hasWriter == old(b.hasWriter)
        invariant forall b <- iobs :: unchanged(b`buf, b`off, b`len, b`input, b`output, b`refused, b`closedAtEof)
      {
        assert forall j :: 0 <= j < |iobs| && iobs[j] == iobs[i] ==> j == i;
        assert iobs[..i + 1] == iobs[..i] + [iobs[i]] && iobs[i..] == [iobs[i]] + iobs[i + 1..];
        iobs[i].Free(fd);
      }
      assert iobs[..|iobs|] == iobs;
    }

    /** `read_callback` */
    method ReadCallback(k: nat, r: ReadResult, accepted: bool)
      requires Valid() && k < |iobs| && iobs[k].reading
      requires r.Data? ==> 0 < |r.bytes| <= BUFFER_SIZE - iobs[k].len
      modifies this, iobs
      ensures Valid()
      ensures forall b <- iobs :: old(b.input) <= b.input && b.output == old(b.output) && (b.hasWriter ==> old(b.hasWriter))
      ensures r.Data? ==> var b := iobs[k];
                b.input == if old(b.hasWriter) && (accepted || !b.isOutput) then old(b.input) + r.bytes else old(b.input)
      ensures r.Eof? ==> var b := iobs[k]; !b.hasReader && (b.hasWriter ==> b.output < b.input)
      ensures r.Data? ==> var b := iobs[k]; b.hasReader && b.reading == (b.len < BUFFER_SIZE)
      ensures alive == (old(alive) && !(r.Data? && !accepted))
      ensures forall b <- iobs :: old(b.hasWriter) && Apart(b, iobs[k]) ==> b.hasWriter
    {
      var iob := iobs[k];
      match r {
        case ReadAgain =>
        case Eof =>
          FreeByFd(iob.rfd);
          if iob.hasWriter && iob.off == iob.len {
            CloseWriter(k);
          }
        case Data(bytes) =>
          iob.Take(bytes, accepted);
          if !accepted {
            alive := false;
          }
      }
    }

    /** Forward EOF to the writer, when everything has been written. */
    method CloseWriter(k: nat)
      requires Valid() && k < |iobs| && iobs[k].hasWriter && iobs[k].off == iobs[k].len
      modifies iobs
      ensures Valid() && iobs[k].closedAtEof && !iobs[k].hasWriter && iobs[k].output == iobs[k].input
      ensures forall b <- iobs :: b.hasReader ==> old(b.hasReader)
      ensures forall b <- iobs :: b.wfd != iobs[k].wfd ==> b.hasWriter == old(b.hasWriter) && b.closedAtEof == old(b.closedAtEof)
      ensures forall b <- iobs :: b.input == old(b.input) && b.output == old(b.output) && (b.hasWriter ==> old(b.hasWriter))
    {
      FreeByFd(iobs[k].wfd);
      iobs[k].closedAtEof := true;
    }

    /** `write_callback` */
    method WriteCallback(k: nat, r: WriteResult)
      requires Valid() && k < |iobs| && iobs[k].writing
      requires r.Wrote? ==> r.n <= iobs[k].len - iobs[k].off
      modifies this, iobs
      ensures Valid()
      ensures forall b <- iobs :: b.input == old(b.input) && old(b.output) <= b.output && (b.hasWriter ==> old(b.hasWriter))
      ensures forall b <- iobs :: !old(b.hasWriter) ==> b.output == old(b.output)
      ensures r.Wrote? ==> var b := iobs[k];
                && b.output == old(b.output + b.buf[b.off..b.off + r.n])
                && (!old(b.hasReader) && b.hasWriter ==> b.output < b.input)
                && (old(b.hasReader) ==> b.reading == (old(b.reading) || (b.len < BUFFER_SIZE && (!b.userTty || alive))))
      ensures alive == old(alive)
      ensures forall b <- iobs :: old(b.hasWriter) && Apart(b, iobs[k]) ==> b.hasWriter
      ensures r.PipeClosed? ==> !iobs[k].hasReader && !iobs[k].hasWriter && iobs[k].output == old(iobs[k].output)
    {
      var iob := iobs[k];
      match r {
        case WriteAgain =>
        case WriteBroken =>
        case PipeClosed =>
          if iob.hasReader {
            FreeByFd(iob.rfd);
          }
          assert iob in iobs;
          FreeByFd(iob.wfd);
        case Wrote(n) =>
          iob.Drop(n, alive);
          if iob.off == iob.len && !iob.hasReader {
            CloseWriter(k);
          }
      }
    }

    /** For every interleaving of short reads and writes nothing is lost, every
        byte delivered was read before in this order, a writer is closed at end
        of file only when it has got everything, and output that a plugin
        refused, or that came after it, is not delivered. */
    method Run(events: seq<Event>)
      requires Valid()
      modifies this, iobs
      ensures Valid()
      ensures forall b <- iobs :: old(b.output) <= b.output <= b.input && (b.closedAtEof ==> b.output == b.input)
      ensures forall b <- iobs :: !old(b.hasWriter) ==> !b.hasWriter && b.output == old(b.output)
      ensures forall b <- iobs :: b.refused ==> !b.hasWriter
    {
      for i := 0 to |events|
        invariant Valid()
        invariant forall b <- iobs :: old(b.output) <= b.output
        invariant forall b <- iobs :: !old(b.hasWriter) ==> !b.hasWriter && b.output == old(b.output)
      {
        var e := events[i];
        if e.k < |iobs| {
          if e.Writable? {
            if iobs[e.k].writing && (e.w.Wrote? ==> e.w.n <= iobs[e.k].len - iobs[e.k].off) {
              WriteCallback(e.k, e.w);
            }
          } else if iobs[e.k].reading && (e.r.Data? ==> 0 < |e.r.bytes| <= BUFFER_SIZE - iobs[e.k].len) {
            ReadCallback(e.k, e.r, e.accepted);
          }
        }
      }
    }
  }
}
