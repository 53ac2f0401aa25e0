/** Local storage of a session: the files of one I/O log and the operations
    that the server's message handlers perform on them. */
module LocalStore {
  import opened Timespecs
  import opened IoLogs
  import opened Options
  import opened ResumeSearch

  /** The log directory; `complete` is the cleared write bit of the timing file. */
  datatype Disk = Disk(timing: seq<TimingLine>, streams: map<StreamId, seq<Byte>>, complete: bool)

  /** The open files of one connection and the time it has stored. */
  datatype Handles = Handles(line: nat, positions: Positions, elapsed: Timespec)

  datatype Store = Store(disk: Disk, at: Handles)

  const NO_LOG := Disk([], map[], false)

  /** Write d at position pos, over what is there; a gap reads as zeros. */
  function WriteAt(file: seq<Byte>, pos: nat, d: seq<Byte>): (r: seq<Byte>)
    ensures |r| >= pos + |d| && |r| >= |file|
    ensures r[pos..pos + |d|] == d
    ensures pos <= |file| ==> r[..pos] == file[..pos]
  {
    var f := if pos <= |file| then file else file + seq(pos - |file|, _ => 0 as Byte);
    f[..pos] + d + if pos + |d| < |f| then f[pos + |d|..] else []
  }

  /** `iolog_init` on a new directory: timing, stdout, stderr and ttyout. */
  function StoreAccept(): Store {
    Store(Disk([], map[STDOUT := [], STDERR := [], TTYOUT := []], false),
          Handles(0, map[STDOUT := 0, STDERR := 0, TTYOUT := 0], ZERO))
  }

  /** `iolog_create` as needed: opening for writing truncates. */
  function OpenStream(s: Store, fd: StreamId): Store {
    if fd in s.at.positions then s
    else Store(s.disk.(streams := s.disk.streams[fd := []]), s.at.(positions := s.at.positions[fd := 0]))
  }

  /** Every open file exists and is not before its start. */
  predicate Openable(s: Store) {
    s.at.line <= |s.disk.timing| && s.at.positions.Keys <= s.disk.streams.Keys
  }

  /** The data half of `store_iobuf_local`: `written` of the bytes reach the file. */
  function StoreData(s: Store, fd: StreamId, data: seq<Byte>): (r: Store)
    requires Openable(s)
    ensures Openable(r) && r.disk.timing == s.disk.timing && r.at.line == s.at.line && r.at.elapsed == s.at.elapsed
  {
    var o := OpenStream(s, fd);
    var pos := o.at.positions[fd];
    Store(o.disk.(streams := o.disk.streams[fd := WriteAt(o.disk.streams[fd], pos, data)]),
          o.at.(positions := o.at.positions[fd := pos + |data|]))
  }

  /** The timing half of every store operation: write the line, add the delay. */
  function StoreLine(s: Store, line: TimingLine): (r: Store)
    requires Openable(s)
    ensures Openable(r)
  {
    var t := s.disk.timing;
    var k := s.at.line;
    Store(s.disk.(timing := if k < |t| then t[k := line] else t + [line]),
          s.at.(line := k + 1, elapsed := Plus(s.at.elapsed, line.delay)))
  }

  function StoreRecordData(s: Store, r: Record): Store
    requires Openable(s)
  {
    if r.event.IoBuffer? then StoreData(s, r.event.fd, r.event.data) else s
  }

  function StoreRecord(s: Store, r: Record): (s': Store)
    requires Openable(s)
    ensures Openable(s')
  {
    StoreLine(StoreRecordData(s, r), LineOf(r))
  }

  function StoreExit(s: Store): Store {
    s.(disk := s.disk.(complete := true))
  }

  /** The line a restart continues after: at time zero plain files start over. */
  function RestartIndex(disk: Disk, target: Timespec, compressed: bool): Option<nat> {
    if !compressed && !IsSet(target) then Some(0) else ResumeIndex(disk.timing, disk.streams.Keys, target, 0)
  }

  /** `store_restart_local`, both for plain files, which are reopened and
      overwritten from the resume point, and for compressed ones, which are
      first cut down to it. */
  function StoreRestart(disk: Disk, target: Timespec, compressed: bool): Option<Store>
  {
    if disk.complete then None
    else match RestartIndex(disk, target, compressed)
         case None => None
         case Some(k) =>
           ResumeIndexInRange(disk.timing, disk.streams.Keys, target, 0);
           var positions := map fd | fd in disk.streams :: ByteCount(disk.timing, k, fd);
           Some(Store(if compressed then CutDown(disk, k) else disk, Handles(k, positions, target)))
  }

  lemma {:induction false} ResumeIndexInRange(t: seq<TimingLine>, open: set<StreamId>, target: Timespec, from: nat)
    requires from <= |t|
    ensures var k := ResumeIndex(t, open, target, from); k.Some? ==> k.value <= |t|
    decreases |t| - from
  {
    if from < |t| {
      ResumeIndexInRange(t, open, target, from + 1);
    }
  }

  function Prefix(s: seq<Byte>, n: nat): seq<Byte> {
    if n <= |s| then s[..n] else s
  }

  function CutDown(disk: Disk, k: nat): Disk
    requires k <= |disk.timing|
  {
    Disk(disk.timing[..k], map fd | fd in disk.streams :: Prefix(disk.streams[fd], ByteCount(disk.timing, k, fd)),
         disk.complete)
  }

  /** Positions and elapsed time are what the lines before the current one say. */
  ghost predicate Counted(s: Store) {
    && Openable(s)
    && s.at.elapsed == Elapsed(s.disk.timing, s.at.line)
    && (forall fd: StreamId ::
          ByteCount(s.disk.timing, s.at.line, fd) == if fd in s.at.positions then s.at.positions[fd] else 0)
  }

  /** Storing a record keeps the counts exact, wherever in the file it goes. */
  lemma {:induction false} StoreRecordCounted(s: Store, r: Record)
    requires Counted(s)
    ensures Counted(StoreRecord(s, r))
  {
    var s' := StoreRecord(s, r);
    ElapsedOfPrefix(s.disk.timing, s'.disk.timing, s.at.line);
  }

  /** Storing a record when writes fail: a failed write is not noticed, because
      its error value -1 counts as true.  `written` bytes of the data reach
      their file, and the line is written or not; elapsed time always advances. */
  function StoreRecordUnnoticed(s: Store, r: Record, written: nat, line: bool): Store
    requires Openable(s)
  {
    var d := if r.event.IoBuffer? then StoreData(s, r.event.fd, Prefix(r.event.data, written)) else s;
    if line then StoreLine(d, LineOf(r)) else d.(at := d.at.(elapsed := Plus(d.at.elapsed, r.delay)))
  }

  /** What must have been written for the counts to stay right: everything, or
      nothing of a record that adds no time. */
  predicate Harmless(r: Record, written: nat, line: bool) {
    if line then r.event.IoBuffer? ==> written == |r.event.data|
    else !IsSet(r.delay) && (r.event.IoBuffer? ==> written == 0)
  }

  /** The counts stay right if and only if both writes succeeded, or neither did
      and the record has no delay. */
  lemma {:induction false} FailedWritesBreakCounts(s: Store, r: Record, written: nat, line: bool)
    requires Counted(s) && NormalLog(s.disk.timing) && Normal(r.delay)
    requires r.event.IoBuffer? ==> written <= |r.event.data|
    ensures Counted(StoreRecordUnnoticed(s, r, written, line)) <==> Harmless(r, written, line)
  {
    if line {
      LineWritten(s, r, written);
    } else {
      LineMissing(s, r, written);
    }
  }

  lemma {:induction false} LineWritten(s: Store, r: Record, written: nat)
    requires Counted(s) && (r.event.IoBuffer? ==> written <= |r.event.data|)
    ensures Counted(StoreRecordUnnoticed(s, r, written, true)) <==> Harmless(r, written, true)
  {
    hide Plus;
    var s' := StoreRecordUnnoticed(s, r, written, true);
    ElapsedOfPrefix(s.disk.timing, s'.disk.timing, s.at.line);
    if r.event.IoBuffer? {
      var fd := r.event.fd;
      assert ByteCount(s'.disk.timing, s.at.line + 1, fd) == ByteCount(s.disk.timing, s.at.line, fd) + |r.event.data|;
      if written == |r.event.data| {
        assert Prefix(r.event.data, written) == r.event.data;
      }
    }
  }

  lemma {:induction false} LineMissing(s: Store, r: Record, written: nat)
    requires Counted(s) && NormalLog(s.disk.timing) && Normal(r.delay)
    requires r.event.IoBuffer? ==> written <= |r.event.data|
    ensures Counted(StoreRecordUnnoticed(s, r, written, false)) <==> Harmless(r, written, false)
  {
    var s' := StoreRecordUnnoticed(s, r, written, false);
    ElapsedNormal(s.disk.timing, s.at.line);
    assert s'.at.elapsed == s.at.elapsed <==> !IsSet(r.delay) by {
      NotSetIsZero(r.delay);
      if !IsSet(r.delay) {
        NanosInjective(s'.at.elapsed, s.at.elapsed);
      }
    }
    hide Plus, Normal, IsSet, Nanos;
    if r.event.IoBuffer? {
      var fd := r.event.fd;
      assert s'.at.positions[fd] == (if fd in s.at.positions then s.at.positions[fd] else 0) + written;
    }
  }

  /** A session's elapsed time is the total of its timing file exactly when no
      line from where it writes on has a delay; it need not write at the end,
      because reopening does not truncate. */
  lemma {:induction false} ElapsedIsFileTotalIff(s: Store)
    requires Counted(s) && NormalLog(s.disk.timing)
    ensures s.at.elapsed == Elapsed(s.disk.timing, |s.disk.timing|) <==>
            forall i :: s.at.line <= i < |s.disk.timing| ==> !IsSet(s.disk.timing[i].delay)
  {
    ElapsedSameIff(s.disk.timing, s.at.line, |s.disk.timing|);
  }

  /** The object a connection holds: files in place, handles moving over them. */
  class LogFiles {
    var timing: seq<TimingLine>
    var streams: map<StreamId, seq<Byte>>
    var complete: bool
    var line: nat
    var positions: Positions
    var elapsed: Timespec

    ghost function State(): Store
      reads this
    {
      Store(Disk(timing, streams, complete), Handles(line, positions, elapsed))
    }

    ghost predicate Valid()
      reads this
    {
      Openable(State()) && Normal(elapsed)
    }

    constructor (disk: Disk)
      ensures Valid() && State().disk == disk && line == 0 && positions == map[] && elapsed == ZERO
    {
      timing, streams, complete := disk.timing, disk.streams, disk.complete;
      line, positions, elapsed := 0, map[], ZERO;
    }

    method Create(fd: StreamId)
      modifies this`streams, this`positions
      ensures streams == old(streams)[fd := []] && positions == old(positions)[fd := 0]
    {
      streams, positions := streams[fd := []], positions[fd := 0];
    }

    method Accept()
      requires State().disk == NO_LOG && positions == map[] && elapsed == ZERO && line == 0
      modifies this
      ensures Valid() && State() == StoreAccept()
      ensures timing == [] && streams == map[STDOUT := [], STDERR := [], TTYOUT := []]
    {
      timing := [];
      Create(STDOUT);
      Create(STDERR);
      Create(TTYOUT);
    }

    method WriteLine(l: TimingLine)
      requires Valid() && Normal(l.delay)
      modifies this
      ensures Valid() && State() == StoreLine(old(State()), l)
    {
      timing := if line < |timing| then timing[line := l] else timing + [l];
      line := line + 1;
      elapsed := Add(elapsed, l.delay);
    }

    method IoBuffer(fd: StreamId, delay: Timespec, data: seq<Byte>)
      requires Valid() && Normal(delay)
      modifies this
      ensures Valid() && State() == StoreRecord(old(State()), Record(delay, Event.IoBuffer(fd, data)))
      ensures timing[old(line)] == IoLine(delay, fd, |data|) && line == old(line) + 1
      ensures fd in streams && positions == old(positions)[fd := if fd in old(positions) then old(positions[fd]) + |data| else |data|]
      ensures |data| <= positions[fd] <= |streams[fd]| && streams[fd][positions[fd] - |data|..positions[fd]] == data
    {
      if fd !in positions {
        Create(fd);
      }
      streams := streams[fd := WriteAt(streams[fd], positions[fd], data)];
      positions := positions[fd := positions[fd] + |data|];
      WriteLine(IoLine(delay, fd, |data|));
    }

    method Winsize(delay: Timespec, lines: nat, cols: nat)
      requires Valid() && Normal(delay)
      modifies this
      ensures Valid() && State() == StoreRecord(old(State()), Record(delay, WindowSize(lines, cols)))
      ensures timing[old(line)] == SizeLine(delay, lines, cols) && line == old(line) + 1 && streams == old(streams)
    {
      WriteLine(SizeLine(delay, lines, cols));
    }

    method Suspended(delay: Timespec, signo: nat)
      requires Valid() && Normal(delay)
      modifies this
      ensures Valid() && State() == StoreRecord(old(State()), Record(delay, Suspend(signo)))
      ensures timing[old(line)] == SuspendLine(delay, signo) && line == old(line) + 1 && streams == old(streams)
    {
      WriteLine(SuspendLine(delay, signo));
    }

    method Exit()
      modifies this`complete
      ensures State() == StoreExit(old(State()))
    {
      complete := true;
    }

    /** `store_restart_local` */
    method Restart(target: Timespec, compressed: bool) returns (ok: bool)
      requires NormalLog(timing) && Normal(target)
      modifies this
      ensures var r := StoreRestart(old(State().disk), target, compressed);
              ok == r.Some? && if ok then State() == r.value else State().disk == old(State().disk)
      ensures ok ==> Valid()
    {
      hide ResumeIndex, ByteCount, Elapsed, Normal;
      if complete {
        return false;
      }
      var r: SeekResult;
      if compressed {
        r := RewriteSearch(timing, streams.Keys, target);
      } else {
        r := SeekTo(timing, streams.Keys, target);
      }
      match r {
        case NotFound => return false;
        case Found(k, e, p) =>
          assert p == map fd | fd in streams :: ByteCount(timing, k, fd);
          Reposition(k, e, p, compressed);
          return true;
      }
    }

    /** Continue after line k: in the same files, or in copies that end there. */
    method Reposition(k: nat, e: Timespec, p: Positions, compressed: bool)
      requires k <= |timing| && PositionsAt(p, streams.Keys, timing, k)
      modifies this
      ensures var disk := old(State().disk);
              State() == Store(if compressed then CutDown(disk, k) else disk, Handles(k, p, e))
    {
      if compressed {
        streams := map fd | fd in streams :: Prefix(streams[fd], p[fd]);
        timing := timing[..k];
      }
      line, elapsed, positions := k, e, p;
    }
  }
}
