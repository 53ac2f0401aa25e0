/** Reading a stored I/O log back, as a client that sends it on does: line by
    line, each buffer from where its stream was left. */
module LogReader {
  import opened IoLogs
  import opened Options
  import opened LocalStore
  import opened StoredPrefix
  import opened ResumeSearch
  import opened ReadBuffers

  /** The record that line k and the streams tell; none if its stream is not
      there or ends before. */
  function RecordAt(disk: Disk, k: nat): Option<Record>
    requires k < |disk.timing|
  {
    match disk.timing[k]
    case SizeLine(delay, lines, cols) => Some(Record(delay, WindowSize(lines, cols)))
    case SuspendLine(delay, signo) => Some(Record(delay, Suspend(signo)))
    case IoLine(delay, fd, n) =>
      var at := ByteCount(disk.timing, k, fd);
      if fd in disk.streams && at + n <= |disk.streams[fd]| then
        Some(Record(delay, Event.IoBuffer(fd, disk.streams[fd][at..at + n])))
      else None
  }

  /** Where the bytes of a stored record stand. */
  lemma {:induction false} BytesStored(log: seq<Record>, disk: Disk, k: nat, fd: StreamId)
    requires Agrees(log, disk) && k < |disk.timing| && IsFor(log[k], fd)
    ensures fd in disk.streams && ByteCount(disk.timing, k, fd) == |Stream(log, k, fd)|
    ensures Stream(log, k, fd) + log[k].event.data <= disk.streams[fd]
  {
    var n := |disk.timing|;
    assert StreamAgrees(log, n, disk.streams, fd);
    assert Used(log, k + 1, fd) && Stream(log, k + 1, fd) == Stream(log, k, fd) + log[k].event.data;
    hide Used, Stream, ByteCount, Lines;
    UsedGrows(log, k + 1, n, fd);
    ElapsedOfPrefix(disk.timing, Lines(log), k);
    StreamLength(log, k, fd);
    StreamGrows(log, k + 1, n, fd);
  }

  /** A stored line and its bytes are the client's record. */
  lemma {:induction false} StoredIsRead(log: seq<Record>, disk: Disk, k: nat)
    requires Agrees(log, disk) && k < |disk.timing|
    ensures RecordAt(disk, k) == Some(log[k])
  {
    assert disk.timing[k] == LineOf(log[k]);
    hide Agrees, Stream, ByteCount, Lines;
    if log[k].event.IoBuffer? {
      var fd := log[k].event.fd;
      BytesStored(log, disk, k, fd);
      PartOf(Stream(log, k, fd), log[k].event.data, disk.streams[fd]);
    }
  }

  lemma {:induction false} PartOf(before: seq<Byte>, data: seq<Byte>, file: seq<Byte>)
    requires before + data <= file
    ensures |before| + |data| <= |file| && file[|before|..|before| + |data|] == data
  {
    assert file[..|before + data|] == before + data;
  }

  lemma {:induction false} FinalAgrees(log: seq<Record>, disk: Disk)
    requires IsFinal(log, disk)
    ensures Agrees(log, disk) && |disk.timing| == |log|
  {
    hide Stream, Used, Lines;
    assert Lines(log)[..|log|] == Lines(log);
  }

  lemma {:induction false} AllRead(log: seq<Record>, disk: Disk, records: seq<Record>)
    requires Agrees(log, disk) && |records| == |disk.timing|
    requires forall k :: 0 <= k < |disk.timing| && Covered(disk, k + 1) ==> RecordAt(disk, k) == Some(records[k])
    ensures records == log[..|disk.timing|]
  {
    forall k | 0 <= k < |disk.timing| ensures RecordAt(disk, k) == Some(log[k]) {
      StoredIsRead(log, disk, k);
    }
    forall k | 0 <= k < |disk.timing| ensures records[k] == log[k] {
      StoredIsRead(log, disk, k);
    }
  }

  /** A disk on which a record cannot be read agrees with no log. */
  lemma {:induction false} Unread(disk: Disk, k: nat)
    requires k < |disk.timing| && RecordAt(disk, k).None?
    ensures forall log :: !Agrees(log, disk) && !IsFinal(log, disk)
  {
    forall log ensures !Agrees(log, disk) && !IsFinal(log, disk) {
      if IsFinal(log, disk) {
        FinalAgrees(log, disk);
      }
      if Agrees(log, disk) {
        StoredIsRead(log, disk, k);
      }
    }
  }

  /** Positions are what the lines read so far add up to. */
  ghost predicate ReadTo(disk: Disk, k: nat, positions: Positions)
    requires k <= |disk.timing|
  {
    forall fd: StreamId :: ByteCount(disk.timing, k, fd) == if fd in positions then positions[fd] else 0
  }

  /** The streams have all bytes that the first k lines announce. */
  ghost predicate Covered(disk: Disk, k: nat)
    requires k <= |disk.timing|
  {
    forall i :: 0 <= i < k ==> RecordAt(disk, i).Some?
  }

  /** What a record must have from its line, whatever bytes were read. */
  predicate FromLine(line: TimingLine, r: Record) {
    && r.delay == line.delay
    && match line
       case IoLine(_, fd, n) => r.event.IoBuffer? && r.event.fd == fd && |r.event.data| == n
       case SizeLine(_, lines, cols) => r.event == WindowSize(lines, cols)
       case SuspendLine(_, signo) => r.event == Suspend(signo)
  }

  /** read(2) into the front of the buffer; what is behind stays. */
  method ReadInto(buf: array<Byte>, bytes: seq<Byte>)
    requires |bytes| <= buf.Length
    modifies buf
    ensures buf[..|bytes|] == bytes && buf[|bytes|..] == old(buf[|bytes|..])
  {
    forall i | 0 <= i < |bytes| {
      buf[i] := bytes[i];
    }
  }

  /** `read_io_buf` on a stream at a position: the first n bytes of the buffer,
      which grows if it must, are those of the stream as far as it goes. */
  method ReadIoBuf(buf: array<Byte>, stream: seq<Byte>, at: nat, n: nat) returns (buf': array<Byte>, count: nat)
    modifies buf
    ensures buf' == buf || fresh(buf')
    ensures n <= buf'.Length && count == (if at + n <= |stream| then n else if at <= |stream| then |stream| - at else 0)
    ensures at + n <= |stream| ==> buf'[..n] == stream[at..at + n]
    ensures count > 0 ==> buf'[..count] == stream[at..at + count]
  {
    buf' := buf;
    count := if at + n <= |stream| then n else if at <= |stream| then |stream| - at else 0;
    if n > buf.Length {
      buf' := new Byte[Pow2Roundup(n)];
    }
    if count > 0 {
      ReadInto(buf', stream[at..at + count]);
    }
  }

  /** What has been read up to line k. */
  ghost predicate Sofar(disk: Disk, k: nat, records: seq<Record>, positions: Positions) {
    && |records| == k <= |disk.timing|
    && (forall i :: 0 <= i < k ==> FromLine(disk.timing[i], records[i]))
    && (forall i :: 0 <= i < k && disk.timing[i].IoLine? ==> disk.timing[i].fd in disk.streams)
    && (forall i :: 0 <= i < k && Covered(disk, i + 1) ==> RecordAt(disk, i) == Some(records[i]))
    && (Covered(disk, k) ==> ReadTo(disk, k, positions))
  }

  lemma {:induction false} OneMore(disk: Disk, k: nat, records: seq<Record>, positions: Positions, r: Record, positions': Positions)
    requires Sofar(disk, k, records, positions) && k < |disk.timing| && FromLine(disk.timing[k], r)
    requires disk.timing[k].IoLine? ==> disk.timing[k].fd in disk.streams
    requires Covered(disk, k + 1) ==> RecordAt(disk, k) == Some(r) && ReadTo(disk, k + 1, positions')
    ensures Sofar(disk, k + 1, records + [r], positions')
  {
    hide FromLine, RecordAt, ReadTo;
    assert Covered(disk, k + 1) ==> Covered(disk, k);
    hide Covered;
  }

  /** The positions after a buffer that was there in full. */
  lemma {:induction false} MovedOn(disk: Disk, k: nat, positions: Positions)
    requires k < |disk.timing|
    requires ReadTo(disk, k, positions)
    ensures match disk.timing[k]
            case IoLine(_, fd, n) =>
              ReadTo(disk, k + 1, positions[fd := (if fd in positions then positions[fd] else 0) + n])
            case _ => ReadTo(disk, k + 1, positions)
  {
  }

  /** Read the whole log.  It fails exactly when a stream is not there.  A stream
      that ends early is not noticed: the rest of the buffer is what was in it
      before.  Up to there the records are those that lines and streams tell,
      which are the client's own as far as its log is stored. */
  method ReadBack(disk: Disk) returns (r: Option<seq<Record>>)
    ensures r.Some? <==> forall line <- disk.timing :: line.IoLine? ==> line.fd in disk.streams
    ensures r.Some? ==> |r.value| == |disk.timing| && forall k :: 0 <= k < |disk.timing| ==> FromLine(disk.timing[k], r.value[k])
    ensures r.Some? ==> forall k :: 0 <= k < |disk.timing| && Covered(disk, k + 1) ==> RecordAt(disk, k) == Some(r.value[k])
    ensures forall log :: Agrees(log, disk) ==> r == Some(log[..|disk.timing|])
    ensures forall log :: IsFinal(log, disk) ==> r == Some(log)
  {
    var records, positions := [], map[];
    var buf := new Byte[0];
    r := None;
    for k := 0 to |disk.timing|
      invariant Sofar(disk, k, records, positions) && fresh(buf) && r == None
    {
      hide Agrees, IsFinal, Sofar;
      var next, moved;
      buf, next, moved := ReadLine(disk, k, buf, records, positions);
      if next.None? {
        Unread(disk, k);
        return;
      }
      records, positions := records + [next.value], moved;
    }
    r := Some(records);
    hide FromLine, RecordAt, Covered;
    forall log | Agrees(log, disk) ensures records == log[..|disk.timing|] {
      AllRead(log, disk, records);
    }
    forall log | IsFinal(log, disk) ensures records == log {
      FinalAgrees(log, disk);
      AllRead(log, disk, records);
    }
  }

  /** One line and what it stands for. */
  method ReadLine(disk: Disk, k: nat, buf: array<Byte>, ghost records: seq<Record>, positions: Positions)
    returns (buf': array<Byte>, r: Option<Record>, positions': Positions)
    requires k < |disk.timing| && Sofar(disk, k, records, positions)
    modifies buf
    ensures buf' == buf || fresh(buf')
    ensures r.None? ==> disk.timing[k].IoLine? && disk.timing[k].fd !in disk.streams && RecordAt(disk, k).None?
    ensures r.Some? ==> Sofar(disk, k + 1, records + [r.value], positions')
  {
    buf', positions' := buf, positions;
    match disk.timing[k] {
      case SizeLine(delay, lines, cols) => r := Some(Record(delay, WindowSize(lines, cols)));
      case SuspendLine(delay, signo) => r := Some(Record(delay, Suspend(signo)));
      case IoLine(delay, fd, n) =>
        if fd !in disk.streams {
          return buf, None, positions;
        }
        var at := if fd in positions then positions[fd] else 0;
        var count;
        buf', count := ReadIoBuf(buf, disk.streams[fd], at, n);
        r := Some(Record(delay, Event.IoBuffer(fd, buf'[..n])));
        positions' := positions[fd := at + count];
    }
    if Covered(disk, k + 1) {
      assert Covered(disk, k) && RecordAt(disk, k).Some?;
      MovedOn(disk, k, positions);
    }
    OneMore(disk, k, records, positions, r.value, positions');
  }
}
