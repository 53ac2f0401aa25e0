/** The three searches for a resume point: in the timing file of an
    uncompressed log, in that of a compressed log that is then rewritten, and
    in a journal of client messages. */
module ResumeSearch {
  import opened Timespecs
  import opened IoLogs
  import opened Framing
  import opened Options

  /** The stream a line refers to, if any, is open. */
  predicate Readable(line: TimingLine, open: set<StreamId>) {
    line.IoLine? ==> line.fd in open
  }

  /** The first k lines lead to the target, no fewer do, and all can be read. */
  ghost predicate FirstAt(t: seq<TimingLine>, open: set<StreamId>, target: Timespec, k: nat) {
    && 0 < k <= |t|
    && Elapsed(t, k) == target
    && (forall i :: 0 <= i < k ==> Nanos(Elapsed(t, i)) < Nanos(target) && Readable(t[i], open))
  }

  /** Where a search ends, as a value; only `iolog_seekto` treats a zero target
      apart. */
  function ResumeIndex(t: seq<TimingLine>, open: set<StreamId>, target: Timespec, from: nat): Option<nat>
    requires from <= |t|
    decreases |t| - from
  {
    if from == |t| || !Readable(t[from], open) then None
    else if Cmp(Elapsed(t, from + 1), target, Eq) then Some(from + 1)
    else if Cmp(Elapsed(t, from + 1), target, Ge) then None
    else ResumeIndex(t, open, target, from + 1)
  }

  /** Everything before `from` has been read and lies before the target. */
  ghost predicate Searching(t: seq<TimingLine>, open: set<StreamId>, target: Timespec, from: nat) {
    && from <= |t| && NormalLog(t) && Normal(target)
    && (forall i :: 0 <= i <= from ==> Nanos(Elapsed(t, i)) < Nanos(target))
    && (forall i :: 0 <= i < from ==> Readable(t[i], open))
  }

  lemma {:induction false} SearchStep(t: seq<TimingLine>, open: set<StreamId>, target: Timespec, from: nat)
    requires Searching(t, open, target, from) && from < |t|
    ensures Normal(Elapsed(t, from + 1))
    ensures Cmp(Elapsed(t, from + 1), target, Eq) <==> Elapsed(t, from + 1) == target
    ensures !Cmp(Elapsed(t, from + 1), target, Ge) && Readable(t[from], open)
            ==> Searching(t, open, target, from + 1)
  {
    ElapsedNormal(t, from + 1);
    CmpIsOrderOfInstants(Elapsed(t, from + 1), target, Ge);
  }

  /** A search succeeds exactly when the target is the time of some prefix of
      the log that can be read, and then stops at the shortest such prefix. */
  lemma {:induction false} ResumeIndexFrom(t: seq<TimingLine>, open: set<StreamId>, target: Timespec, from: nat)
    requires Searching(t, open, target, from)
    ensures match ResumeIndex(t, open, target, from)
            case Some(k) => FirstAt(t, open, target, k)
            case None => forall k :: !FirstAt(t, open, target, k)
    decreases |t| - from
  {
    hide Nanos, Plus;
    if from < |t| && Readable(t[from], open) {
      SearchStep(t, open, target, from);
      var e := Elapsed(t, from + 1);
      if Cmp(e, target, Eq) {
        assert FirstAt(t, open, target, from + 1);
      } else if Cmp(e, target, Ge) {
        PastTarget(t, open, target, from + 1);
      } else {
        ResumeIndexFrom(t, open, target, from + 1);
      }
    } else {
      assert forall k: nat :: FirstAt(t, open, target, k) ==> k > from;
    }
  }

  /** Once past the target, no longer prefix can hit it. */
  lemma {:induction false} PastTarget(t: seq<TimingLine>, open: set<StreamId>, target: Timespec, from: nat)
    requires NormalLog(t) && Normal(target) && from <= |t|
    requires forall i :: 0 <= i < from ==> Nanos(Elapsed(t, i)) < Nanos(target)
    requires Cmp(Elapsed(t, from), target, Ge) && Elapsed(t, from) != target
    ensures forall k :: !FirstAt(t, open, target, k)
  {
    var e := Elapsed(t, from);
    ElapsedNormal(t, from);
    CmpIsOrderOfInstants(e, target, Ge);
    if Nanos(e) == Nanos(target) {
      NanosInjective(e, target);
    }
    forall k: nat ensures !FirstAt(t, open, target, k) {
      if from <= k <= |t| {
        ElapsedMonotone(t, from, k);
      }
    }
  }

  lemma {:induction false} ResumeIndexIsFirst(t: seq<TimingLine>, open: set<StreamId>, target: Timespec)
    requires NormalLog(t) && Normal(target) && IsSet(target)
    ensures match ResumeIndex(t, open, target, 0)
            case Some(k) => FirstAt(t, open, target, k)
            case None => forall k :: !FirstAt(t, open, target, k)
  {
    NotSetIsZero(target);
    ResumeIndexFrom(t, open, target, 0);
  }

  /** There is at most one such place. */
  lemma {:induction false} FirstIsOne(t: seq<TimingLine>, open: set<StreamId>, target: Timespec, a: nat, b: nat)
    requires FirstAt(t, open, target, a) && FirstAt(t, open, target, b)
    ensures a == b
  {
  }

  /** With every stream present, the search finds exactly the prefix sums. */
  lemma {:induction false} FoundIffPrefixSum(t: seq<TimingLine>, open: set<StreamId>, target: Timespec)
    requires NormalLog(t) && Normal(target) && IsSet(target)
    requires forall i :: 0 <= i < |t| ==> Readable(t[i], open)
    ensures ResumeIndex(t, open, target, 0).Some? <==> exists k: nat :: k <= |t| && Elapsed(t, k) == target
  {
    ResumeIndexIsFirst(t, open, target);
    if k: nat :| k <= |t| && Elapsed(t, k) == target {
      ShortestPrefix(t, open, target, k);
    }
  }

  lemma {:induction false} ShortestPrefix(t: seq<TimingLine>, open: set<StreamId>, target: Timespec, k: nat)
    requires NormalLog(t) && Normal(target) && IsSet(target)
    requires forall i :: 0 <= i < |t| ==> Readable(t[i], open)
    requires k <= |t| && Elapsed(t, k) == target
    ensures exists j :: FirstAt(t, open, target, j)
  {
    NotSetIsZero(target);
    if i :| 0 <= i < k && Nanos(Elapsed(t, i)) >= Nanos(target) {
      ElapsedMonotone(t, i, k);
      ElapsedNormal(t, i);
      NanosInjective(Elapsed(t, i), target);
      ShortestPrefix(t, open, target, i);
    } else {
      assert FirstAt(t, open, target, k);
    }
  }

  type Positions = map<StreamId, nat>

  datatype SeekResult = Found(index: nat, elapsed: Timespec, positions: Positions) | NotFound

  ghost predicate PositionsAt(p: Positions, open: set<StreamId>, t: seq<TimingLine>, k: nat)
    requires k <= |t|
  {
    p.Keys == open && forall fd :: fd in open ==> p[fd] == ByteCount(t, k, fd)
  }

  /** The search's answer: the index, the elapsed time, the stream positions. */
  ghost predicate Answers(r: SeekResult, t: seq<TimingLine>, open: set<StreamId>, target: Timespec, where: Option<nat>) {
    match where
    case None => r.NotFound?
    case Some(k) => r.Found? && r.index == k <= |t| && r.elapsed == target && PositionsAt(r.positions, open, t, k)
  }

  /** `iolog_seekto`: read lines, add delays and seek every stream forward. */
  method SeekTo(t: seq<TimingLine>, open: set<StreamId>, target: Timespec) returns (r: SeekResult)
    requires NormalLog(t) && Normal(target)
    ensures IsSet(target) ==> Answers(r, t, open, target, ResumeIndex(t, open, target, 0))
    ensures !IsSet(target) ==> r.Found? && r.index == 0 && r.elapsed == ZERO && PositionsAt(r.positions, open, t, 0)
  {
    var positions: Positions := map fd | fd in open :: 0;
    if !IsSet(target) {
      return Found(0, ZERO, positions);
    }
    NotSetIsZero(target);
    assert Searching(t, open, target, 0);
    hide Nanos;
    var elapsed, i := ZERO, 0;
    while i < |t|
      invariant Searching(t, open, target, i) && elapsed == Elapsed(t, i)
      invariant PositionsAt(positions, open, t, i)
      invariant ResumeIndex(t, open, target, 0) == ResumeIndex(t, open, target, i)
    {
      ElapsedNormal(t, i);
      elapsed := Add(elapsed, t[i].delay);
      if t[i].IoLine? {
        if t[i].fd !in open {
          return NotFound;
        }
        positions := positions[t[i].fd := positions[t[i].fd] + t[i].nbytes];
      }
      SearchStep(t, open, target, i);
      if Cmp(elapsed, target, Ge) {
        return if Cmp(elapsed, target, Eq) then Found(i + 1, elapsed, positions) else NotFound;
      }
      i := i + 1;
    }
    return NotFound;
  }

  /** The search loop of `iolog_rewrite`, which sums sizes instead of seeking
      and does not treat a zero target apart. */
  method RewriteSearch(t: seq<TimingLine>, open: set<StreamId>, target: Timespec) returns (r: SeekResult)
    requires NormalLog(t) && Normal(target)
    ensures Answers(r, t, open, target, ResumeIndex(t, open, target, 0))
  {
    hide Nanos;
    var sizes: Positions := map fd | fd in open :: 0;
    var elapsed, i := ZERO, 0;
    while i < |t|
      invariant i <= |t| && elapsed == Elapsed(t, i)
      invariant PositionsAt(sizes, open, t, i)
      invariant ResumeIndex(t, open, target, 0) == ResumeIndex(t, open, target, i)
    {
      ElapsedNormal(t, i);
      elapsed := Add(elapsed, t[i].delay);
      if t[i].IoLine? {
        if t[i].fd !in open {
          return NotFound;
        }
        sizes := sizes[t[i].fd := sizes[t[i].fd] + t[i].nbytes];
      }
      if Cmp(elapsed, target, Ge) {
        return if Cmp(elapsed, target, Eq) then Found(i + 1, elapsed, sizes) else NotFound;
      }
      i := i + 1;
    }
    return NotFound;
  }

  /** What unpacking a journaled client message says about its delay. */
  datatype Unpacked = Corrupt | NoDelay | Delay(delay: Timespec)

  type Unpack = Message -> Unpacked

  ghost predicate NormalDelays(unpack: Unpack, ms: seq<Message>) {
    forall i :: 0 <= i < |ms| && unpack(ms[i]).Delay? ==> Normal(unpack(ms[i]).delay)
  }

  function JournalElapsed(unpack: Unpack, ms: seq<Message>, k: nat): Timespec
    requires k <= |ms|
  {
    if k == 0 then ZERO
    else match unpack(ms[k - 1])
         case Delay(d) => Plus(JournalElapsed(unpack, ms, k - 1), d)
         case _ => JournalElapsed(unpack, ms, k - 1)
  }

  /** How many of the first k messages carry a delay. */
  function TimedCount(unpack: Unpack, ms: seq<Message>, k: nat): nat
    requires k <= |ms|
  {
    if k == 0 then 0 else TimedCount(unpack, ms, k - 1) + if unpack(ms[k - 1]).Delay? then 1 else 0
  }

  lemma {:induction false} JournalElapsedNormal(unpack: Unpack, ms: seq<Message>, k: nat)
    requires k <= |ms| && NormalDelays(unpack, ms)
    ensures Normal(JournalElapsed(unpack, ms, k))
  {
    if k > 0 {
      JournalElapsedNormal(unpack, ms, k - 1);
    }
  }

  /** Number of messages a search of the journal reads before it succeeds. */
  function JournalIndex(unpack: Unpack, ms: seq<Message>, target: Timespec, from: nat): Option<nat>
    requires from <= |ms|
    decreases |ms| - from
  {
    if from == |ms| || unpack(ms[from]).Corrupt? then None
    else if Cmp(JournalElapsed(unpack, ms, from + 1), target, Eq) then Some(from + 1)
    else if Cmp(JournalElapsed(unpack, ms, from + 1), target, Ge) then None
    else JournalIndex(unpack, ms, target, from + 1)
  }

  /** `journal_seek`: read length, message and delay until the target. */
  method JournalSeek(unpack: Unpack, journal: seq<Byte>, target: Timespec) returns (r: Option<nat>)
    requires NormalDelays(unpack, Parse(journal).msgs)
    ensures var ms := Parse(journal).msgs; var k := JournalIndex(unpack, ms, target, 0);
            && r.Some? == k.Some?
            && (k.Some? ==> k.value <= |ms| && Sendable(ms) && r.value == |Frames(ms[..k.value])|)
  {
    hide WireLength, JournalIndex, Parse, Frames;
    ghost var ms := Parse(journal).msgs;
    JournalStart(journal);
    var elapsed, pos := ZERO, 0;
    ghost var i := 0;
    while true
      invariant AtMessage(journal, ms, pos, i) && elapsed == JournalElapsed(unpack, ms, i)
      invariant JournalIndex(unpack, ms, target, 0) == JournalIndex(unpack, ms, target, i)
      decreases |journal| - pos
    {
      AtMessageStep(journal, ms, pos, i);
      JournalIndexUnfold(unpack, ms, target, i);
      if pos + 4 > |journal| {
        return None;
      }
      var n := WireLength(journal[pos..]);
      if n > MESSAGE_SIZE_MAX || pos + 4 + n > |journal| {
        return None;
      }
      var m := journal[pos + 4..pos + 4 + n];
      JournalElapsedNormal(unpack, ms, i);
      match unpack(m) {
        case Corrupt => return None;
        case NoDelay =>
        case Delay(d) => elapsed := Add(elapsed, d);
      }
      i, pos := i + 1, pos + 4 + n;
      if Cmp(elapsed, target, Ge) {
        return if Cmp(elapsed, target, Eq) then Some(pos) else None;
      }
    }
  }

  /** Byte pos of the journal is where message i begins, or the end of them. */
  ghost predicate AtMessage(journal: seq<Byte>, ms: seq<Message>, pos: nat, i: nat) {
    && Sendable(ms) && i <= |ms| && pos <= |journal|
    && Parse(journal[pos..]).msgs == ms[i..] && pos == |Frames(ms[..i])|
  }

  lemma {:induction false} JournalStart(journal: seq<Byte>)
    ensures AtMessage(journal, Parse(journal).msgs, 0, 0)
  {
    ParseSplits(journal);
    hide Parse;
    var ms := Parse(journal).msgs;
    assert journal[0..] == journal && ms[0..] == ms && ms[..0] == [];
  }

  lemma {:induction false} AtMessageStep(journal: seq<Byte>, ms: seq<Message>, pos: nat, i: nat)
    requires AtMessage(journal, ms, pos, i)
    ensures Complete(journal[pos..]) ==>
              var n := WireLength(journal[pos..]);
              i < |ms| && ms[i] == journal[pos + 4..pos + 4 + n] && AtMessage(journal, ms, pos + 4 + n, i + 1)
    ensures !Complete(journal[pos..]) ==> i == |ms|
  {
    hide WireLength;
    var t := journal[pos..];
    if Complete(t) {
      var n := WireLength(t);
      var m := journal[pos + 4..pos + 4 + n];
      assert m == t[4..4 + n] && journal[pos + 4 + n..] == t[4 + n..];
      assert ms[i..][0] == ms[i] && ms[i + 1..] == ms[i..][1..];
      FramesAppend(ms[..i], [m]);
      assert ms[..i + 1] == ms[..i] + [m] && Frames([m]) == Frame(m) + Frames([]);
    }
  }

  lemma {:induction false} JournalIndexUnfold(unpack: Unpack, ms: seq<Message>, target: Timespec, i: nat)
    requires i <= |ms|
    ensures JournalIndex(unpack, ms, target, i) ==
            if i == |ms| || unpack(ms[i]).Corrupt? then None
            else if Cmp(JournalElapsed(unpack, ms, i + 1), target, Eq) then Some(i + 1)
            else if Cmp(JournalElapsed(unpack, ms, i + 1), target, Ge) then None
            else JournalIndex(unpack, ms, target, i + 1)
  {
  }

  /** The timed messages of the journal are the lines of the log, in order. */
  ghost predicate Journals(unpack: Unpack, ms: seq<Message>, t: seq<TimingLine>) {
    && TimedCount(unpack, ms, |ms|) == |t|
    && (forall i :: 0 <= i < |ms| ==> !unpack(ms[i]).Corrupt?)
    && (forall i :: 0 <= i < |ms| && unpack(ms[i]).Delay? ==>
          TimedCount(unpack, ms, i) < |t| && unpack(ms[i]).delay == t[TimedCount(unpack, ms, i)].delay)
  }

  /** For the same log, the search of the journal and the search of the timing
      file succeed for the same targets and stop after the same record. */
  lemma {:induction false} SearchesAgree(unpack: Unpack, ms: seq<Message>, t: seq<TimingLine>, open: set<StreamId>, target: Timespec)
    requires Journals(unpack, ms, t) && NormalLog(t) && Normal(target) && IsSet(target)
    requires forall i :: 0 <= i < |t| ==> Readable(t[i], open)
    ensures var k := JournalIndex(unpack, ms, target, 0); var n := ResumeIndex(t, open, target, 0);
            k.Some? == n.Some? && (k.Some? ==> k.value <= |ms| && n.value == TimedCount(unpack, ms, k.value))
  {
    NotSetIsZero(target);
    AgreeFrom(unpack, ms, t, open, target, 0);
  }

  lemma {:induction false} AgreeFrom(unpack: Unpack, ms: seq<Message>, t: seq<TimingLine>, open: set<StreamId>,
                                     target: Timespec, i: nat)
    requires Journals(unpack, ms, t) && i <= |ms|
    requires forall i :: 0 <= i < |t| ==> Readable(t[i], open)
    requires Searching(t, open, target, TimedCount(unpack, ms, i))
    requires JournalElapsed(unpack, ms, i) == Elapsed(t, TimedCount(unpack, ms, i))
    ensures var k := JournalIndex(unpack, ms, target, i);
            var n := ResumeIndex(t, open, target, TimedCount(unpack, ms, i));
            k.Some? == n.Some? && (k.Some? ==> k.value <= |ms| && n.value == TimedCount(unpack, ms, k.value))
    decreases |ms| - i
  {
    hide Nanos, Plus;
    var n := TimedCount(unpack, ms, i);
    if i < |ms| {
      if unpack(ms[i]).Delay? {
        SearchStep(t, open, target, n);
        if !Cmp(Elapsed(t, n + 1), target, Ge) {
          AgreeFrom(unpack, ms, t, open, target, i + 1);
        }
      } else {
        ElapsedNormal(t, n);
        CmpIsOrderOfInstants(Elapsed(t, n), target, Ge);
        CmpIsOrderOfInstants(Elapsed(t, n), target, Eq);
        AgreeFrom(unpack, ms, t, open, target, i + 1);
      }
    }
  }
}
