/** What it means for the files on disk to agree with a client's log, and why
    every storage operation of a session preserves it, also when a session
    resumes before the end of what is already stored. */
module StoredPrefix {
  import opened Timespecs
  import opened IoLogs
  import opened Options
  import opened ResumeSearch
  import opened LocalStore

  function Next(log: seq<Record>, n: nat): nat {
    if n < |log| then n + 1 else n
  }

  /** Streams that every session creates at its start. */
  predicate Base(fd: StreamId) {
    fd == STDOUT || fd == STDERR || fd == TTYOUT
  }

  predicate IsFor(r: Record, fd: StreamId) {
    r.event.IoBuffer? && r.event.fd == fd
  }

  /** Some record among the first k carries data for fd. */
  predicate Used(log: seq<Record>, k: nat, fd: StreamId)
    requires k <= |log|
  {
    k > 0 && (Used(log, k - 1, fd) || IsFor(log[k - 1], fd))
  }

  /** Stream fd holds the bytes of the first n records, and at most a part of
      the bytes of the record after them; it exists once it is needed. */
  ghost predicate StreamAgrees(log: seq<Record>, n: nat, streams: map<StreamId, seq<Byte>>, fd: StreamId)
    requires n <= |log|
  {
    if fd in streams then
      && Stream(log, n, fd) <= streams[fd] <= Stream(log, Next(log, n), fd)
      && (Base(fd) || Used(log, |log|, fd))
    else !Base(fd) && !Used(log, n, fd)
  }

  /** The files hold a prefix of the log. */
  ghost predicate Agrees(log: seq<Record>, disk: Disk) {
    var n := |disk.timing|;
    && n <= |log|
    && disk.timing == Lines(log)[..n]
    && (forall fd: StreamId :: StreamAgrees(log, n, disk.streams, fd))
    && (disk.complete ==> n == |log|)
  }

  /** In stream fd the connection stands after k records. */
  ghost predicate HandleAt(log: seq<Record>, k: nat, s: Store, fd: StreamId)
    requires k <= |log|
  {
    && (fd in s.at.positions <==> fd in s.disk.streams)
    && (Used(log, k, fd) ==> fd in s.disk.streams)
    && (fd in s.disk.streams ==> s.at.positions[fd] == |Stream(log, k, fd)| <= |s.disk.streams[fd]|)
  }

  /** The connection stands after m lines, and in the streams after m1 records. */
  ghost predicate Stands(log: seq<Record>, s: Store, m: nat, m1: nat) {
    && m <= |s.disk.timing| && m <= m1 <= |log| && s.at.line == m
    && s.at.elapsed == Elapsed(Lines(log), m)
    && (forall fd: StreamId :: HandleAt(log, m1, s, fd))
  }

  /** The files an uninterrupted session leaves. */
  ghost predicate IsFinal(log: seq<Record>, disk: Disk) {
    && disk.timing == Lines(log)
    && (forall fd: StreamId :: fd in disk.streams <==> Base(fd) || Used(log, |log|, fd))
    && (forall fd: StreamId :: fd in disk.streams ==> disk.streams[fd] == Stream(log, |log|, fd))
  }

  lemma {:induction false} AllStoredIsFinal(log: seq<Record>, disk: Disk)
    requires Agrees(log, disk) && |disk.timing| == |log|
    ensures IsFinal(log, disk)
  {
    forall fd: StreamId
      ensures fd in disk.streams <==> Base(fd) || Used(log, |log|, fd)
      ensures fd in disk.streams ==> disk.streams[fd] == Stream(log, |log|, fd)
    {
      assert StreamAgrees(log, |log|, disk.streams, fd);
    }
  }

  lemma {:induction false} UnusedIsEmpty(log: seq<Record>, k: nat, fd: StreamId)
    requires k <= |log| && !Used(log, k, fd)
    ensures Stream(log, k, fd) == []
  {
    if k > 0 {
      UnusedIsEmpty(log, k - 1, fd);
    }
  }

  /** Opening a stream for the next record's data keeps the agreement. */
  lemma {:induction false} OpenAgrees(log: seq<Record>, s: Store, m: nat, fd: StreamId)
    requires m <= |s.disk.timing| <= |log| && m < |log| && IsFor(log[m], fd)
    requires StreamAgrees(log, |s.disk.timing|, s.disk.streams, fd) && HandleAt(log, m, s, fd)
    ensures var o := OpenStream(s, fd);
            StreamAgrees(log, |s.disk.timing|, o.disk.streams, fd) && HandleAt(log, m, o, fd) && fd in o.disk.streams
  {
    var n := |s.disk.timing|;
    if fd !in s.at.positions {
      UnusedIsEmpty(log, n, fd);
      StreamGrows(log, m, n, fd);
      UsedGrows(log, m + 1, |log|, fd);
    }
  }

  lemma {:induction false} UsedGrows(log: seq<Record>, i: nat, j: nat, fd: StreamId)
    requires i <= j <= |log| && Used(log, i, fd)
    ensures Used(log, j, fd)
    decreases j
  {
    if i < j {
      UsedGrows(log, i, j - 1, fd);
    }
  }

  /** Rewriting a part of what is there already changes nothing. */
  lemma {:induction false} RewritePart(file: seq<Byte>, before: seq<Byte>, d: seq<Byte>, written: nat)
    requires before + d <= file && written <= |d|
    ensures WriteAt(file, |before|, d[..written]) == file
  {
    var k := |before| + written;
    assert file[..|before|] == before && file[|before|..k] == d[..written] by {
      assert (before + d)[|before|..k] == d[..written] && file[..|before + d|] == before + d;
      assert file[..|before + d|][|before|..k] == file[|before|..k];
    }
    assert file == file[..|before|] + file[|before|..k] + file[k..];
  }

  /** Data that begins in the file and goes on past its end extends it. */
  lemma {:induction false} ExtendPart(file: seq<Byte>, before: seq<Byte>, d: seq<Byte>)
    requires before <= file <= before + d
    ensures WriteAt(file, |before|, d) == before + d
  {
    assert file[..|before|] == before;
  }

  /** Writing a record's bytes where they belong leaves a stream that already
      has them as it is, and completes one that does not. */
  lemma {:induction false} RewriteStream(log: seq<Record>, n: nat, m: nat, fd: StreamId, file: seq<Byte>)
    requires m <= n <= |log| && m < |log|
    requires Stream(log, n, fd) <= file <= Stream(log, Next(log, n), fd)
    ensures var r := WriteAt(file, |Stream(log, m, fd)|, Payload(log[m], fd));
            && Stream(log, n, fd) <= r <= Stream(log, Next(log, n), fd)
            && |Stream(log, m + 1, fd)| <= |r|
  {
    var before, d := Stream(log, m, fd), Payload(log[m], fd);
    StreamGrows(log, m, n, fd);
    hide WriteAt;
    if m < n {
      StreamGrows(log, m + 1, n, fd);
      assert before + d <= file && d[..|d|] == d;
      RewritePart(file, before, d, |d|);
    } else {
      ExtendPart(file, before, d);
    }
  }

  lemma {:induction false} StandsIsOpenable(log: seq<Record>, s: Store, m: nat, m1: nat)
    requires Stands(log, s, m, m1)
    ensures Openable(s)
  {
    forall fd | fd in s.at.positions ensures fd in s.disk.streams {
      assert HandleAt(log, m1, s, fd);
    }
  }

  /** The written stream's share of storing the data of record m. */
  lemma {:induction false} StoreDataHere(log: seq<Record>, s: Store, m: nat, fd: StreamId)
    requires Openable(s) && m <= |s.disk.timing| <= |log| && m < |log| && IsFor(log[m], fd)
    requires StreamAgrees(log, |s.disk.timing|, s.disk.streams, fd) && HandleAt(log, m, s, fd)
    ensures var s' := StoreRecordData(s, log[m]);
            StreamAgrees(log, |s.disk.timing|, s'.disk.streams, fd) && HandleAt(log, m + 1, s', fd)
  {
    OpenAgrees(log, s, m, fd);
    RewriteStream(log, |s.disk.timing|, m, fd, OpenStream(s, fd).disk.streams[fd]);
    hide WriteAt, Elapsed;
  }

  /** Every other stream's share: nothing. */
  lemma {:induction false} StoreDataElsewhere(log: seq<Record>, s: Store, m: nat, fd: StreamId)
    requires Openable(s) && |s.disk.timing| <= |log| && m < |log| && !IsFor(log[m], fd)
    requires StreamAgrees(log, |s.disk.timing|, s.disk.streams, fd) && HandleAt(log, m, s, fd)
    ensures var s' := StoreRecordData(s, log[m]);
            StreamAgrees(log, |s.disk.timing|, s'.disk.streams, fd) && HandleAt(log, m + 1, s', fd)
  {
    hide WriteAt, Elapsed, StreamAgrees;
    UntouchedStream(log, |s.disk.timing|, s.disk.streams, StoreRecordData(s, log[m]).disk.streams, fd);
  }

  /** Storing a record's data, before its line, keeps the files a prefix. */
  lemma {:induction false} StoreDataAgrees(log: seq<Record>, s: Store, m: nat)
    requires Agrees(log, s.disk) && Stands(log, s, m, m) && m < |log|
    ensures Openable(s)
    ensures var s' := StoreRecordData(s, log[m]);
            Agrees(log, s'.disk) && Stands(log, s', m, m + 1) && s'.disk.timing == s.disk.timing
  {
    hide StreamAgrees, HandleAt, Elapsed, WriteAt;
    StandsIsOpenable(log, s, m, m);
    var s', k := StoreRecordData(s, log[m]), m + 1;
    forall fd: StreamId
      ensures StreamAgrees(log, |s.disk.timing|, s'.disk.streams, fd) && HandleAt(log, k, s', fd)
    {
      if IsFor(log[m], fd) {
        StoreDataHere(log, s, m, fd);
      } else {
        StoreDataElsewhere(log, s, m, fd);
      }
    }
  }

  /** A crash in the middle of that write leaves a prefix too. */
  lemma {:induction false} TornWriteAgrees(log: seq<Record>, s: Store, m: nat, written: nat)
    requires Agrees(log, s.disk) && Stands(log, s, m, m) && m < |log|
    requires log[m].event.IoBuffer? && written <= |log[m].event.data|
    ensures Openable(s) && Agrees(log, StoreData(s, log[m].event.fd, log[m].event.data[..written]).disk)
  {
    hide HandleAt, Elapsed, WriteAt, StreamAgrees;
    StandsIsOpenable(log, s, m, m);
    var fd, n := log[m].event.fd, |s.disk.timing|;
    var s' := StoreData(s, fd, log[m].event.data[..written]);
    forall g: StreamId ensures StreamAgrees(log, n, s'.disk.streams, g) {
      assert StreamAgrees(log, n, s.disk.streams, g) && HandleAt(log, m, s, g);
      if g == fd {
        OpenAgrees(log, s, m, fd);
        TornStream(log, n, m, OpenStream(s, fd), fd, written);
      } else {
        UntouchedStream(log, n, s.disk.streams, s'.disk.streams, g);
      }
    }
  }

  lemma {:induction false} UntouchedStream(log: seq<Record>, n: nat, a: map<StreamId, seq<Byte>>, b: map<StreamId, seq<Byte>>, g: StreamId)
    requires n <= |log| && StreamAgrees(log, n, a, g)
    requires (g in a <==> g in b) && (g in a ==> a[g] == b[g])
    ensures StreamAgrees(log, n, b, g)
  {
  }

  lemma {:induction false} TornStream(log: seq<Record>, n: nat, m: nat, o: Store, fd: StreamId, written: nat)
    requires m <= n <= |log| && m < |log| && IsFor(log[m], fd) && written <= |log[m].event.data|
    requires StreamAgrees(log, n, o.disk.streams, fd) && HandleAt(log, m, o, fd) && fd in o.disk.streams
    ensures var file := o.disk.streams[fd];
            StreamAgrees(log, n, o.disk.streams[fd := WriteAt(file, o.at.positions[fd], log[m].event.data[..written])], fd)
  {
    var file, before, d := o.disk.streams[fd], Stream(log, m, fd), log[m].event.data;
    StreamGrows(log, m, n, fd);
    assert file[..|before|] == before;
    if m < n {
      StreamGrows(log, m + 1, n, fd);
      assert before + d <= file;
      hide WriteAt;
      RewritePart(file, before, d, written);
      assert o.disk.streams[fd := file] == o.disk.streams;
    } else {
      assert file <= before + d;
    }
  }

  /** The record's line goes over its own copy, or extends the file. */
  lemma {:induction false} StoreLineAgrees(log: seq<Record>, s: Store, m: nat)
    requires Agrees(log, s.disk) && Stands(log, s, m, m + 1)
    ensures Openable(s)
    ensures var s' := StoreLine(s, LineOf(log[m]));
            && Agrees(log, s'.disk) && Stands(log, s', m + 1, m + 1)
            && |s.disk.timing| <= |s'.disk.timing|
            && (m == |s.disk.timing| ==> |s'.disk.timing| == m + 1)
  {
    hide StreamAgrees, HandleAt, LineOf, Plus;
    StandsIsOpenable(log, s, m, m + 1);
    var n, k, s' := |s.disk.timing|, m + 1, StoreLine(s, LineOf(log[m]));
    forall fd: StreamId ensures HandleAt(log, k, s', fd) {
      HandlesDoNotReadTiming(log, k, s, s', fd);
    }
    if m < n {
      assert s'.disk.timing == s.disk.timing;
    } else {
      assert s'.disk.timing == Lines(log)[..n + 1];
      forall fd: StreamId ensures StreamAgrees(log, k, s.disk.streams, fd) {
        StreamCatchesUp(log, s, n, fd);
      }
    }
  }

  lemma {:induction false} HandlesDoNotReadTiming(log: seq<Record>, k: nat, s: Store, s': Store, fd: StreamId)
    requires k <= |log| && HandleAt(log, k, s, fd)
    requires s'.disk.streams == s.disk.streams && s'.at.positions == s.at.positions
    ensures HandleAt(log, k, s', fd)
  {
  }

  lemma {:induction false} StreamCatchesUp(log: seq<Record>, s: Store, n: nat, fd: StreamId)
    requires n < |log| && StreamAgrees(log, n, s.disk.streams, fd) && HandleAt(log, n + 1, s, fd)
    ensures StreamAgrees(log, n + 1, s.disk.streams, fd)
  {
    if fd in s.disk.streams {
      assert s.disk.streams[fd] == Stream(log, n + 1, fd);
    }
  }

  /** The time of the first k records is later than that of fewer. */
  ghost predicate Sharp(log: seq<Record>, k: nat) {
    && k <= |log| && IsSet(Elapsed(Lines(log), k))
    && forall i :: 0 <= i < k ==> Nanos(Elapsed(Lines(log), i)) < Nanos(Elapsed(Lines(log), k))
  }

  lemma {:induction false} RisingIsSharp(log: seq<Record>, k: nat)
    requires NormalLog(Lines(log)) && Rising(Lines(log)) && k <= |log| && IsSet(Elapsed(Lines(log), k))
    ensures Sharp(log, k)
  {
    hide Rising, Elapsed, Nanos;
    forall i | 0 <= i < k ensures Nanos(Elapsed(Lines(log), i)) < Nanos(Elapsed(Lines(log), k)) {
      ElapsedRises(Lines(log), i, k);
    }
  }

  /** Restarting at the time of the first k stored lines finds line k. */
  lemma {:induction false} RestartFinds(log: seq<Record>, disk: Disk, k: nat)
    requires Agrees(log, disk) && NormalLog(Lines(log)) && Sharp(log, k) && k <= |disk.timing|
    ensures Normal(Elapsed(Lines(log), k))
    ensures ResumeIndex(disk.timing, disk.streams.Keys, Elapsed(Lines(log), k), 0) == Some(k)
  {
    var t, target := Lines(log), Elapsed(Lines(log), k);
    ElapsedNormal(t, k);
    NotSetIsZero(target);
    hide StreamAgrees, Nanos;
    assert Elapsed(t, 0) == ZERO;
    ResumeIndexIsFirst(disk.timing, disk.streams.Keys, target);
    assert FirstAt(disk.timing, disk.streams.Keys, target, k) by {
      forall i | 0 <= i < k
        ensures Nanos(Elapsed(disk.timing, i)) < Nanos(target) && Readable(disk.timing[i], disk.streams.Keys)
      {
        LineBefore(log, disk, k, i);
      }
      ElapsedOfPrefix(disk.timing, t, k);
    }
    FirstIsOne(disk.timing, disk.streams.Keys, target, ResumeIndex(disk.timing, disk.streams.Keys, target, 0).value, k);
  }

  /** A line before the k-th is earlier, and its file is there. */
  lemma {:induction false} LineBefore(log: seq<Record>, disk: Disk, k: nat, i: nat)
    requires Agrees(log, disk) && NormalLog(Lines(log)) && Sharp(log, k) && i < k <= |disk.timing|
    ensures Nanos(Elapsed(disk.timing, i)) < Nanos(Elapsed(Lines(log), k)) && Readable(disk.timing[i], disk.streams.Keys)
  {
    var t := Lines(log);
    ElapsedOfPrefix(disk.timing, t, i);
    if disk.timing[i].IoLine? {
      UsedGrows(log, i + 1, |disk.timing|, disk.timing[i].fd);
      ExistsWhenUsed(log, disk, disk.timing[i].fd);
    }
  }

  lemma {:induction false} ExistsWhenUsed(log: seq<Record>, disk: Disk, fd: StreamId)
    requires Agrees(log, disk) && Used(log, |disk.timing|, fd)
    ensures fd in disk.streams
  {
    assert StreamAgrees(log, |disk.timing|, disk.streams, fd);
  }

  /** Restarting at a stored point puts the connection right after it, with
      the stored files still, or again, a prefix of the log. */
  lemma {:induction false} RestartAgrees(log: seq<Record>, disk: Disk, k: nat, compressed: bool)
    requires Agrees(log, disk) && NormalLog(Lines(log)) && Sharp(log, k) && k <= |disk.timing| && !disk.complete
    ensures var r := StoreRestart(disk, Elapsed(Lines(log), k), compressed);
            && r.Some? && Agrees(log, r.value.disk) && Stands(log, r.value, k, k)
            && !r.value.disk.complete
            && (if compressed then |r.value.disk.timing| == k else r.value.disk == disk)
  {
    RestartFinds(log, disk, k);
    var s := StoreRestart(disk, Elapsed(Lines(log), k), compressed).value;
    hide StreamAgrees, HandleAt, ResumeIndex, Elapsed;
    forall fd: StreamId ensures HandleAt(log, k, s, fd) && StreamAgrees(log, |s.disk.timing|, s.disk.streams, fd) {
      assert StreamAgrees(log, |disk.timing|, disk.streams, fd);
      RestartStream(log, disk, k, compressed, s, fd);
    }
  }

  lemma {:induction false} RestartStream(log: seq<Record>, disk: Disk, k: nat, compressed: bool, s: Store, fd: StreamId)
    requires k <= |disk.timing| <= |log| && disk.timing == Lines(log)[..|disk.timing|]
    requires StreamAgrees(log, |disk.timing|, disk.streams, fd)
    requires s.disk == if compressed then CutDown(disk, k) else disk
    requires s.at.positions == map g | g in disk.streams :: ByteCount(disk.timing, k, g)
    ensures HandleAt(log, k, s, fd)
    ensures compressed ==> StreamAgrees(log, k, s.disk.streams, fd)
    ensures !compressed ==> StreamAgrees(log, |disk.timing|, s.disk.streams, fd)
  {
    var n, count := |disk.timing|, ByteCount(disk.timing, k, fd);
    assert count == |Stream(log, k, fd)| by {
      ElapsedOfPrefix(disk.timing, Lines(log), k);
      StreamLength(log, k, fd);
    }
    StreamGrows(log, k, n, fd);
    StreamGrows(log, k, Next(log, k), fd);
    if Used(log, k, fd) {
      UsedGrows(log, k, n, fd);
    }
    hide Stream, Used, ByteCount, Lines;
    if fd in disk.streams && compressed {
      assert s.disk.streams[fd] == Prefix(disk.streams[fd], count) == Stream(log, k, fd);
    }
  }
}
