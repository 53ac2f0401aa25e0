/** The timed I/O log: what the client holds, and the two views of it that the
    server stores, a list of timing lines and one byte stream per descriptor. */
module IoLogs {
  import opened Timespecs

  newtype Byte = x: int | 0 <= x < 256

  /** IOFD_STDIN .. IOFD_TTYOUT; IOFD_TIMING is the timing file itself. */
  type StreamId = n: nat | n < 5

  const STDOUT: StreamId := 1
  const STDERR: StreamId := 2
  const TTYOUT: StreamId := 4

  datatype Event =
    | IoBuffer(fd: StreamId, data: seq<Byte>)
    | WindowSize(lines: nat, cols: nat)
    | Suspend(signo: nat)

  datatype Record = Record(delay: Timespec, event: Event)

  /** One line of the timing file. */
  datatype TimingLine =
    | IoLine(delay: Timespec, fd: StreamId, nbytes: nat)
    | SizeLine(delay: Timespec, lines: nat, cols: nat)
    | SuspendLine(delay: Timespec, signo: nat)

  function LineOf(r: Record): TimingLine {
    match r.event
    case IoBuffer(fd, data) => IoLine(r.delay, fd, |data|)
    case WindowSize(lines, cols) => SizeLine(r.delay, lines, cols)
    case Suspend(signo) => SuspendLine(r.delay, signo)
  }

  function Lines(log: seq<Record>): (lines: seq<TimingLine>)
    ensures |lines| == |log|
    ensures forall i :: 0 <= i < |log| ==> lines[i] == LineOf(log[i])
  {
    seq(|log|, i requires 0 <= i < |log| => LineOf(log[i]))
  }

  ghost predicate NormalLog(t: seq<TimingLine>) {
    forall i :: 0 <= i < |t| ==> Normal(t[i].delay)
  }

  /** Time covered by the first k lines. */
  function Elapsed(t: seq<TimingLine>, k: nat): Timespec
    requires k <= |t|
  {
    if k == 0 then ZERO else Plus(Elapsed(t, k - 1), t[k - 1].delay)
  }

  /** Once time has passed, every line adds some. */
  ghost predicate Rising(t: seq<TimingLine>) {
    forall i :: 0 <= i < |t| && IsSet(Elapsed(t, i)) ==> IsSet(t[i].delay)
  }

  /** Every line after the first adds time. */
  ghost predicate LaterDelays(t: seq<TimingLine>) {
    forall i :: 0 < i < |t| ==> IsSet(t[i].delay)
  }

  /** Bytes of stream fd that the first k lines account for. */
  function ByteCount(t: seq<TimingLine>, k: nat, fd: StreamId): nat
    requires k <= |t|
  {
    if k == 0 then 0
    else ByteCount(t, k - 1, fd) +
         if t[k - 1].IoLine? && t[k - 1].fd == fd then t[k - 1].nbytes else 0
  }

  function Payload(r: Record, fd: StreamId): seq<Byte> {
    if r.event.IoBuffer? && r.event.fd == fd then r.event.data else []
  }

  /** Contents of stream fd after the first k records. */
  function Stream(log: seq<Record>, k: nat, fd: StreamId): seq<Byte>
    requires k <= |log|
  {
    if k == 0 then [] else Stream(log, k - 1, fd) + Payload(log[k - 1], fd)
  }

  lemma {:induction false} ElapsedNormal(t: seq<TimingLine>, k: nat)
    requires k <= |t| && NormalLog(t)
    ensures Normal(Elapsed(t, k))
  {
    if k > 0 {
      ElapsedNormal(t, k - 1);
    }
  }

  /** Elapsed time never decreases. */
  lemma {:induction false} ElapsedMonotone(t: seq<TimingLine>, i: nat, j: nat)
    requires i <= j <= |t| && NormalLog(t)
    ensures Nanos(Elapsed(t, i)) <= Nanos(Elapsed(t, j))
    decreases j
  {
    if i < j {
      ElapsedMonotone(t, i, j - 1);
      NotSetIsZero(t[j - 1].delay);
    }
  }

  lemma {:induction false} NotSetIsZero(d: Timespec)
    requires Normal(d)
    ensures 0 <= Nanos(d)
    ensures IsSet(d) <==> 0 < Nanos(d)
  {
  }

  /** Time stands still between two positions exactly when no line there has a
      delay. */
  lemma {:induction false} ElapsedSameIff(t: seq<TimingLine>, i: nat, j: nat)
    requires i <= j <= |t| && NormalLog(t)
    ensures Elapsed(t, i) == Elapsed(t, j) <==> forall k :: i <= k < j ==> !IsSet(t[k].delay)
    decreases j
  {
    if i < j {
      var k := j - 1;
      assert Elapsed(t, j) == Plus(Elapsed(t, k), t[k].delay);
      hide Nanos, Plus, Elapsed, IsSet;
      ElapsedSameIff(t, i, k);
      ElapsedMonotone(t, i, k);
      NotSetIsZero(t[k].delay);
      ElapsedNormal(t, i);
      ElapsedNormal(t, k);
      ElapsedNormal(t, j);
      if Nanos(Elapsed(t, i)) == Nanos(Elapsed(t, k)) {
        NanosInjective(Elapsed(t, i), Elapsed(t, k));
      }
      if !IsSet(t[k].delay) {
        NanosInjective(Elapsed(t, k), Elapsed(t, j));
      }
    }
  }

  /** If the delays rise, each point in time but zero is later than all before. */
  lemma {:induction false} ElapsedRises(t: seq<TimingLine>, i: nat, j: nat)
    requires i < j <= |t| && NormalLog(t) && Rising(t) && IsSet(Elapsed(t, j))
    ensures Nanos(Elapsed(t, i)) < Nanos(Elapsed(t, j))
  {
    hide Nanos, Plus, IsSet;
    var k := j - 1;
    assert Elapsed(t, j) == Plus(Elapsed(t, k), t[k].delay);
    assert IsSet(Elapsed(t, k)) ==> IsSet(t[k].delay);
    hide Elapsed, Rising;
    ElapsedMonotone(t, i, k);
    ElapsedNormal(t, k);
    ElapsedNormal(t, j);
    NotSetIsZero(Elapsed(t, k));
    NotSetIsZero(Elapsed(t, j));
    NotSetIsZero(t[k].delay);
  }

  /** Then a point in time names one position in the log. */
  lemma {:induction false} ElapsedInjective(t: seq<TimingLine>, i: nat, j: nat)
    requires i <= |t| && j <= |t| && NormalLog(t) && Rising(t)
    requires Elapsed(t, i) == Elapsed(t, j) && IsSet(Elapsed(t, i))
    ensures i == j
  {
    if i < j {
      ElapsedRises(t, i, j);
    } else if j < i {
      ElapsedRises(t, j, i);
    }
  }

  lemma {:induction false} ElapsedOfPrefix(t: seq<TimingLine>, u: seq<TimingLine>, k: nat)
    requires k <= |t| && k <= |u|
    requires forall i :: 0 <= i < k ==> t[i] == u[i]
    ensures Elapsed(t, k) == Elapsed(u, k)
    ensures forall fd :: ByteCount(t, k, fd) == ByteCount(u, k, fd)
  {
    if k > 0 {
      ElapsedOfPrefix(t, u, k - 1);
    }
  }

  /** A stream is as long as its timing lines say it is. */
  lemma {:induction false} StreamLength(log: seq<Record>, k: nat, fd: StreamId)
    requires k <= |log|
    ensures |Stream(log, k, fd)| == ByteCount(Lines(log), k, fd)
  {
    if k > 0 {
      StreamLength(log, k - 1, fd);
    }
  }

  lemma {:induction false} StreamGrows(log: seq<Record>, i: nat, j: nat, fd: StreamId)
    requires i <= j <= |log|
    ensures Stream(log, i, fd) <= Stream(log, j, fd)
    decreases j
  {
    if i < j {
      StreamGrows(log, i, j - 1, fd);
    }
  }
}
