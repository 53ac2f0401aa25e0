/** Further consequences of the session invariant. */
module SessionResults {
  import opened Timespecs
  import opened IoLogs
  import opened StoredPrefix
  import opened Session
  import opened SessionSafety
  import opened Options
  import opened LogReader

  /** Two runs that both reach the stored exit message leave the same files,
      however often either of them was interrupted. */
  lemma {:induction false} SameFiles(log: seq<Record>, compressed: bool, run: seq<Step>, compressed': bool, run': seq<Step>)
    requires Timed(log)
    requires Exec(log, compressed, run).disk.complete && Exec(log, compressed', run').disk.complete
    ensures Exec(log, compressed, run).disk == Exec(log, compressed', run').disk
  {
    ResumeEquivalence(log, compressed, run);
    ResumeEquivalence(log, compressed', run');
    hide Exec;
    var d, d' := Exec(log, compressed, run).disk, Exec(log, compressed', run').disk;
    assert d.streams.Keys == d'.streams.Keys;
    assert d.streams == d'.streams;
  }

  /** Whoever reads the files during or after any run gets the client's own
      records: the first ones, and all of them once the exit message is stored. */
  lemma {:induction false} StoredLogIsRead(log: seq<Record>, compressed: bool, run: seq<Step>)
    requires Timed(log)
    ensures var disk := Exec(log, compressed, run).disk;
            && |disk.timing| <= |log| && (disk.complete ==> |disk.timing| == |log|)
            && forall k :: 0 <= k < |disk.timing| ==> RecordAt(disk, k) == Some(log[k])
  {
    ResumeEquivalence(log, compressed, run);
    hide Exec, IsFinal, StreamAgrees, RecordAt;
    var s := Exec(log, compressed, run);
    if s.created {
      forall k | 0 <= k < |s.disk.timing| ensures RecordAt(s.disk, k) == Some(log[k]) {
        StoredIsRead(log, s.disk, k);
      }
    }
  }

  /** Each stream holds the bytes its timing lines count, and beyond them at
      most a part of one record whose line was not written any more. */
  lemma {:induction false} StreamsCoverTiming(log: seq<Record>, compressed: bool, run: seq<Step>, fd: StreamId)
    requires Timed(log)
    ensures var disk := Exec(log, compressed, run).disk; var n := |disk.timing|;
            fd in disk.streams ==>
              && ByteCount(disk.timing, n, fd) <= |disk.streams[fd]|
              && |disk.streams[fd]| <= ByteCount(disk.timing, n, fd) + (if n < |log| then |Payload(log[n], fd)| else 0)
              && (disk.complete ==> |disk.streams[fd]| == ByteCount(disk.timing, n, fd))
  {
    EveryRun(log, compressed, run);
    var s := Exec(log, compressed, run);
    hide Exec, LinkOk, KnownOk;
    if s.created && fd in s.disk.streams {
      var n := |s.disk.timing|;
      assert StreamAgrees(log, n, s.disk.streams, fd);
      StreamLength(log, n, fd);
      CountOfPrefix(s.disk.timing, Lines(log), n, fd);
    }
  }

  lemma {:induction false} CountOfPrefix(t: seq<TimingLine>, u: seq<TimingLine>, k: nat, fd: StreamId)
    requires k <= |t| <= |u| && t == u[..|t|]
    ensures ByteCount(t, k, fd) == ByteCount(u, k, fd)
  {
    if k > 0 {
      CountOfPrefix(t, u, k - 1, fd);
    }
  }

  /** The commit points a client has taken and those still on their way. */
  function CommitPoints(last: Timespec, ms: seq<ServerMsg>): (ps: seq<Timespec>)
    ensures |ps| > 0
    decreases ms
  {
    if ms == [] then [last]
    else if ms[0].Commit? then [last] + CommitPoints(ms[0].point, ms[1..])
    else CommitPoints(last, ms[1..])
  }

  ghost predicate Ascending(ps: seq<Timespec>) {
    forall i, j :: 0 <= i < j < |ps| ==> Nanos(ps[i]) <= Nanos(ps[j])
  }

  ghost predicate NotBefore(ps: seq<Timespec>, p: Timespec) {
    forall i :: 0 <= i < |ps| ==> Nanos(p) <= Nanos(ps[i])
  }

  lemma {:induction false} DownstreamAscends(log: seq<Record>, from: nat, last: Timespec, ms: seq<ServerMsg>, n: nat)
    requires Timed(log) && Downstream(log, from, last, ms, n)
    ensures var ps := CommitPoints(last, ms);
            && n <= |log| && ps[0] == last && Ascending(ps)
            && Nanos(ps[|ps| - 1]) <= Nanos(Elapsed(Lines(log), n))
            && (from <= |log| ==> NotBefore(ps[1..], Elapsed(Lines(log), from)))
    decreases ms
  {
    hide Reached, Elapsed, Nanos, Timed;
    if ms != [] {
      match ms[0] {
        case LogId => DownstreamAscends(log, from, last, ms[1..], n);
        case Commit(p) =>
          DownstreamAscends(log, from, p, ms[1..], n);
          ReachedLater(log, p, from, n);
          var rest := CommitPoints(p, ms[1..]);
          assert Nanos(last) <= Nanos(rest[0]);
          forall i | 0 <= i < |rest| ensures Nanos(last) <= Nanos(rest[i]) && Nanos(p) <= Nanos(rest[i]) {
            assert i > 0 ==> Nanos(rest[0]) <= Nanos(rest[i]);
          }
          assert ([last] + rest)[1..] == rest;
      }
    }
  }

  predicate Logging(v: Server) {
    v.state.Running? || v.state.Exited? || v.state.Done?
  }

  /** On a connection commit points never decrease, none is later than what the
      server has stored, and none is before the point the session resumed at. */
  lemma {:induction false} CommitPointsNeverDecrease(log: seq<Record>, compressed: bool, run: seq<Step>)
    requires Timed(log)
    ensures var s := Exec(log, compressed, run);
            s.link.Some? && Logging(s.link.value.server) ==>
              var k := s.link.value; var c := k.client; var ps := CommitPoints(c.committed, k.toClient);
              && Ascending(ps) && Nanos(ps[|ps| - 1]) <= Nanos(k.server.at.elapsed)
              && c.first <= |log| && NotBefore(ps[1..], Elapsed(Lines(log), c.first))
              && (IsSet(c.committed) ==> Nanos(Elapsed(Lines(log), c.first)) <= Nanos(c.committed))
  {
    hide Exec, Agrees, Timed, Elapsed, LaterDelays, FlowOk, Stands;
    EveryRun(log, compressed, run);
    var s := Exec(log, compressed, run);
    if s.link.Some? && Logging(s.link.value.server) {
      var k := s.link.value;
      CommitIsElapsed(log, s, k);
      DownstreamAscends(log, k.client.first, k.client.committed, k.toClient, k.server.at.line);
    }
  }
}
