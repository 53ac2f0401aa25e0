/** Exactly which logs keep the promises of a session, whatever the run. */
module SessionExact {
  import opened Timespecs
  import opened IoLogs
  import opened Options
  import opened LocalStore
  import opened StoredPrefix
  import opened Session
  import opened SessionSafety
  import opened SessionRuns

  // ---- storing the first records ----

  /** The first i records are stored and the next one is queued. */
  ghost predicate FirstStored(log: seq<Record>, s: System, i: nat) {
    && i < |log| && s.link.Some? && !s.compressed && s.created && s.known == {} && !s.disk.complete
    && |s.disk.timing| == i && Agrees(log, s.disk)
    && var k := s.link.value;
       && k.client == Client(SendIo, ZERO, Elapsed(Lines(log), i + 1), ZERO, 0, i + 1, [Data(log[i])])
       && k.toServer == [] && k.toClient == [LogId]
       && k.server.state.Running? && k.server.writing.None? && (i > 0 ==> k.server.commitDue)
       && Stands(log, Store(s.disk, k.server.at), i, i)
  }

  lemma {:induction false} FirstQueued(log: seq<Record>)
    requires log != []
    ensures FormatNext(log, NEW_CLIENT.(state := SendIo, queue := []), 0)
         == Client(SendIo, ZERO, Elapsed(Lines(log), 1), ZERO, 0, 1, [Data(log[0])])
  {
    FormatsOne(log, NEW_CLIENT.(state := SendIo, queue := []), 0);
    ElapsedAtStart(log);
    assert [] + [Data(log[0])] == [Data(log[0])];
  }

  lemma {:induction false} NextQueued(log: seq<Record>, c: Client)
    requires c.state.SendIo? && c.restart == ZERO && c.next < |log| && c.elapsed == Elapsed(Lines(log), c.next)
    ensures Completion(log, c.(queue := []), 0) ==
            c.(elapsed := Elapsed(Lines(log), c.next + 1), next := c.next + 1, queue := [Data(log[c.next])])
  {
    FormatsOne(log, c.(queue := []), 0);
    assert [] + [Data(log[c.next])] == [Data(log[c.next])];
  }

  /** Storing the next record where it belongs. */
  lemma {:induction false} StoreNext(log: seq<Record>, s: Store, i: nat)
    requires Agrees(log, s.disk) && Stands(log, s, i, i) && i < |log| && |s.disk.timing| == i && !s.disk.complete
    ensures Openable(s)
    ensures var t := StoreRecord(s, log[i]);
            Agrees(log, t.disk) && Stands(log, t, i + 1, i + 1) && |t.disk.timing| == i + 1 && !t.disk.complete
  {
    hide Agrees, Stands, StoreRecordData;
    StoreDataAgrees(log, s, i);
    StoreDataKeepsComplete(s, log[i]);
    var d := StoreRecordData(s, log[i]);
    StoreLineAgrees(log, d, i);
  }

  lemma {:induction false} StoresNext(log: seq<Record>, s: System, i: nat, run0: seq<Step>) returns (run: seq<Step>)
    requires Exec(log, false, run0) == s && FirstStored(log, s, i) && i + 1 < |log|
    ensures FirstStored(log, Exec(log, false, run), i + 1)
  {
    hide Exec, Agrees, Stands, StoreRecord, Elapsed, FormatNext, Completion, Openable;
    var k := s.link.value;
    NextQueued(log, k.client);
    StoreNext(log, Store(s.disk, k.server.at), i);
    run := SendsOne(log, s, 0, run0);
    run := StoresOne(log, Exec(log, false, run), log[i], run);
    var st := StoreRecord(Store(s.disk, k.server.at), log[i]);
    assert [Data(log[i])][1..] == [] && Store(st.disk, st.at) == st;
  }

  lemma {:induction false} StoresFirst(log: seq<Record>, i: nat) returns (run: seq<Step>)
    requires i < |log|
    ensures FirstStored(log, Exec(log, false, run), i)
    decreases i
  {
    hide Exec, Agrees, Stands, FormatNext, FirstStored;
    if i == 0 {
      run := NoneStored(log);
    } else {
      run := StoresFirst(log, i - 1);
      run := StoresNext(log, Exec(log, false, run), i - 1, run);
    }
  }

  lemma {:induction false} NoneStored(log: seq<Record>) returns (run: seq<Step>)
    requires log != []
    ensures FirstStored(log, Exec(log, false, run), 0)
  {
    hide Exec, Agrees, Stands, FormatNext;
    AcceptOk(log);
    FirstQueued(log);
    run := Opened(log, 0);
    assert Store(EMPTY, StoreAccept().at) == StoreAccept();
  }

  // ---- finishing ----

  /** The commit point for the first i records is known, and finishes the client
      exactly if the next record, which it has formatted, adds no time. */
  lemma {:induction false} CommitsFirst(log: seq<Record>, i: nat) returns (run: seq<Step>)
    requires NormalLog(Lines(log)) && 0 < i < |log|
    ensures var s := Exec(log, false, run);
            && s.(link := None) == System(s.disk, true, false, None, {Elapsed(Lines(log), i)})
            && s.link.Some? && (s.link.value.client.state.Finished? <==> !IsSet(log[i].delay))
            && Agrees(log, s.disk) && |s.disk.timing| == i && !s.disk.complete
  {
    hide Exec, Agrees, Elapsed, NormalLog;
    run := StoresFirst(log, i);
    var s := Exec(log, false, run);
    var k := s.link.value;
    StandsLine(log, Store(s.disk, k.server.at), i, i);
    run := CommitHeard(log, s, run);
    ElapsedSameIff(Lines(log), i, i + 1);
    assert {} + {Elapsed(Lines(log), i)} == {Elapsed(Lines(log), i)};
  }

  /** A client that finished has everything stored. */
  ghost predicate FinishedIsStored(log: seq<Record>, s: System) {
    s.link.Some? && s.link.value.client.state.Finished? ==> IsFinal(log, s.disk)
  }

  /** A later record without delay lets a client finish before it is stored. */
  lemma {:induction false} ZeroDelayFinishesEarly(log: seq<Record>, i: nat)
    requires NormalLog(Lines(log)) && 0 < i < |log| && !IsSet(log[i].delay)
    ensures exists run :: !FinishedIsStored(log, Exec(log, false, run))
  {
    hide Exec;
    var run := CommitsFirst(log, i);
    assert !FinishedIsStored(log, Exec(log, false, run));
  }

  /** In every run a client that finished has everything stored, if and only if
      every record after the first has a delay. */
  lemma {:induction false} FinishedIsStoredIff(log: seq<Record>)
    requires NormalLog(Lines(log))
    ensures (forall compressed, run :: FinishedIsStored(log, Exec(log, compressed, run))) <==> LaterDelays(Lines(log))
  {
    hide Exec, FinishedIsStored, NormalLog;
    if LaterDelays(Lines(log)) {
      forall compressed, run ensures FinishedIsStored(log, Exec(log, compressed, run)) {
        AlwaysStored(log, compressed, run);
      }
    } else {
      var i :| 0 < i < |log| && !IsSet(Lines(log)[i].delay);
      ZeroDelayFinishesEarly(log, i);
    }
  }

  lemma {:induction false} AlwaysStored(log: seq<Record>, compressed: bool, run: seq<Step>)
    requires NormalLog(Lines(log)) && LaterDelays(Lines(log))
    ensures FinishedIsStored(log, Exec(log, compressed, run))
  {
    hide Exec, NormalLog, LaterDelays;
    CompletionIsSound(log, compressed, run);
  }

  // ---- losing a record ----

  /** Time has passed before record i, which adds none. */
  ghost predicate Flat(log: seq<Record>, i: nat) {
    i < |log| && IsSet(Elapsed(Lines(log), i)) && !IsSet(log[i].delay)
  }

  lemma {:induction false} EarliestFlat(log: seq<Record>, i: nat) returns (j: nat)
    requires NormalLog(Lines(log)) && Flat(log, i)
    ensures Flat(log, j) && Sharp(log, j)
    decreases i
  {
    ElapsedAtStart(log);
    hide Elapsed, Nanos;
    if m: nat :| m < i && Flat(log, m) {
      j := EarliestFlat(log, m);
    } else {
      j := i;
      assert !Flat(log, i - 1);
      forall m | 0 <= m < i ensures Nanos(Elapsed(Lines(log), m)) < Nanos(Elapsed(Lines(log), i)) {
        RisesAt(log, m, i);
      }
    }
  }

  lemma {:induction false} RisesAt(log: seq<Record>, m: nat, i: nat)
    requires NormalLog(Lines(log)) && m < i <= |log| && IsSet(Elapsed(Lines(log), i)) && !Flat(log, i - 1)
    ensures Nanos(Elapsed(Lines(log), m)) < Nanos(Elapsed(Lines(log), i))
  {
    var t, k := Lines(log), i - 1;
    assert Elapsed(t, i) == Plus(Elapsed(t, k), t[k].delay) && t[k].delay == log[k].delay;
    hide Elapsed, Nanos, Plus, IsSet;
    ElapsedMonotone(t, m, k);
    ElapsedNormal(t, k);
    ElapsedNormal(t, i);
    NotSetIsZero(Elapsed(t, k));
    NotSetIsZero(Elapsed(t, i));
    NotSetIsZero(t[k].delay);
  }

  /** A restarted client passes over at least the record that adds no time. */
  lemma {:induction false} PassesOver(log: seq<Record>, c: Client)
    requires NormalLog(Lines(log)) && c.state.SendIo? && c.queue == [] && Normal(c.elapsed)
    requires IsSet(c.restart) && c.restart == c.elapsed && c.next <= |log|
    ensures var d := FormatNext(log, c, 0);
            || (d.state.SendExit? && d.queue == [Exit])
            || (d.state.SendIo? && !IsSet(d.restart) && c.next < d.next <= |log| && d.queue == [Data(log[d.next - 1])]
                && (c.next < |log| && !IsSet(log[c.next].delay) ==> c.next + 1 < d.next))
    decreases |log| - c.next
  {
    if c.next == |log| {
      FormatsExit(log, c, 0);
      assert [] + [Exit] == [Exit];
    } else {
      var r := log[c.next];
      assert Lines(log)[c.next].delay == r.delay;
      var e := Plus(c.elapsed, r.delay);
      CmpIsOrderOfInstants(c.restart, e, Ge);
      NotSetIsZero(r.delay);
      if IsSet(r.delay) {
        assert [] + [Data(r)] == [Data(r)];
      } else {
        NanosInjective(c.elapsed, e);
        PassesOver(log, c.(elapsed := e, next := c.next + 1));
      }
    }
  }

  /** The client sends the records it has left, and Exit. */
  ghost predicate Finishing(log: seq<Record>, s: System) {
    && s.link.Some? && s.link.value.toServer == [] && !s.disk.complete
    && var c, v := s.link.value.client, s.link.value.server;
       && v.state.Running? && v.writing.None? && Openable(Store(s.disk, v.at)) && v.at.line == |s.disk.timing|
       && if c.state.SendExit? then c.queue == [Exit]
          else c.state.SendIo? && !IsSet(c.restart) && 0 < c.next <= |log| && c.queue == [Data(log[c.next - 1])]
  }

  function Left(log: seq<Record>, c: Client): int {
    if c.state.SendExit? then 0 else |log| - c.next + 1
  }

  lemma {:induction false} StoreAppends(s: Store, r: Record)
    requires Openable(s) && s.at.line == |s.disk.timing|
    ensures var t := StoreRecord(s, r);
            Openable(t) && t.at.line == |t.disk.timing| == |s.disk.timing| + 1 && t.disk.complete == s.disk.complete
  {
  }

  lemma {:induction false} Completes(log: seq<Record>, c: Client)
    requires c.state.SendIo? && !IsSet(c.restart) && 0 < c.next <= |log|
    ensures var d := Completion(log, c.(queue := []), 0);
            if c.next == |log| then d.state.SendExit? && d.queue == [Exit]
            else d.state.SendIo? && !IsSet(d.restart) && d.next == c.next + 1 && d.queue == [Data(log[c.next])]
  {
    if c.next == |log| {
      FormatsExit(log, c.(queue := []), 0);
    } else {
      FormatsOne(log, c.(queue := []), 0);
    }
    assert [] + [Exit] == [Exit];
  }

  lemma {:induction false} StoresRest(log: seq<Record>, s: System, run0: seq<Step>) returns (run: seq<Step>)
    requires Exec(log, false, run0) == s && Finishing(log, s)
    ensures run0 <= run
    ensures var d := Exec(log, false, run).disk; d.complete && |d.timing| == |s.disk.timing| + Left(log, s.link.value.client)
    decreases Left(log, s.link.value.client)
  {
    var k := s.link.value;
    if k.client.state.SendExit? {
      run := ExitStored(log, s, run0);
    } else {
      hide Exec, StoreRecord, Openable, Completion;
      var r := log[k.client.next - 1];
      Completes(log, k.client);
      StoreAppends(Store(s.disk, k.server.at), r);
      run := SendsOne(log, s, 0, run0);
      run := StoresOne(log, Exec(log, false, run), r, run);
      var st := StoreRecord(Store(s.disk, k.server.at), r);
      assert [Data(r)][1..] == [] && Store(st.disk, st.at) == st;
      run := StoresRest(log, Exec(log, false, run), run);
    }
  }

  lemma {:induction false} ExitStored(log: seq<Record>, s: System, run0: seq<Step>) returns (run: seq<Step>)
    requires Exec(log, false, run0) == s && Finishing(log, s) && s.link.value.client.state.SendExit?
    ensures run0 <= run
    ensures Exec(log, false, run).disk == s.disk.(complete := true)
  {
    hide Exec, Openable;
    run := SendsOne(log, s, 0, run0);
    var t := Exec(log, false, run);
    run := Extend(log, run, t, ServerReceives, Apply(log, t, ServerReceives));
  }

  /** The session breaks after i records and resumes; the server expects record i. */
  lemma {:induction false} ResumesAt(log: seq<Record>, i: nat) returns (broken: seq<Step>, run: seq<Step>)
    requires NormalLog(Lines(log)) && i < |log| && Sharp(log, i)
    ensures broken <= run
    ensures var s := Exec(log, false, broken); s.link.None? && |s.disk.timing| == i && !s.disk.complete
    ensures var s := Exec(log, false, run); var p := Elapsed(Lines(log), i);
            && |s.disk.timing| == i && !s.disk.complete && s.link.Some?
            && s.link.value.client == FormatNext(log, Client(SendIo, p, p, ZERO, i, i, []), 0)
            && s.link.value.toServer == []
            && s.link.value.server.state.Running? && s.link.value.server.writing.None?
            && Stands(log, Store(s.disk, s.link.value.server.at), i, i)
  {
    ElapsedAtStart(log);
    assert 0 < i && IsSet(Elapsed(Lines(log), i));
    hide Exec, Agrees, FormatNext, Elapsed, Sharp, Stands, NormalLog, StoreRestart;
    run := CommitsFirst(log, i);
    var s, p := Exec(log, false, run), Elapsed(Lines(log), i);
    ClientFinds(log, i);
    RestartAgrees(log, s.disk, i, false);
    run := Extend(log, run, s, Disconnect, s.(link := None));
    broken := run;
    run := Reconnected(log, s.disk, i, p, run);
    run := RestartSent(log, Exec(log, false, run), p, 0, run);
    run := ServerRestarted(log, Exec(log, false, run), p, run);
    var r := StoreRestart(s.disk, p, false).value;
    assert Store(r.disk, r.at) == r;
  }

  /** A record that adds no time after some has passed can be lost for good: a
      session resumes after the record before it, ends, and the log is marked
      complete without it. */
  lemma {:induction false} ZeroDelayRecordIsLost(log: seq<Record>, i: nat)
    requires NormalLog(Lines(log)) && Flat(log, i)
    ensures exists run :: var disk := Exec(log, false, run).disk; disk.complete && |disk.timing| < |log|
  {
    var j := EarliestFlat(log, i);
    var _, run := ResumesAt(log, j);
    var s, p := Exec(log, false, run), Elapsed(Lines(log), j);
    ElapsedNormal(Lines(log), j);
    PassesOver(log, Client(SendIo, p, p, ZERO, j, j, []));
    StandsIsOpenable(log, Store(s.disk, s.link.value.server.at), j, j);
    StandsLine(log, Store(s.disk, s.link.value.server.at), j, j);
    hide Exec, Elapsed, FormatNext, Stands, NormalLog, Openable;
    run := StoresRest(log, s, run);
  }

  /** In every run a log that is marked complete holds exactly the records of the
      client's log, if and only if records without delay come only before all
      others. */
  lemma {:induction false} CompleteIsFinalIff(log: seq<Record>)
    requires NormalLog(Lines(log))
    ensures (forall compressed, run :: CompleteIsFinal(log, Exec(log, compressed, run).disk)) <==> Rising(Lines(log))
  {
    hide Exec, CompleteIsFinal, NormalLog, Elapsed;
    if Rising(Lines(log)) {
      forall compressed, run ensures CompleteIsFinal(log, Exec(log, compressed, run).disk) {
        AlwaysFinal(log, compressed, run);
      }
    } else {
      var i :| 0 <= i < |log| && IsSet(Elapsed(Lines(log), i)) && !IsSet(Lines(log)[i].delay);
      ZeroDelayRecordIsLost(log, i);
      var compressed := false;
      var run :| var disk := Exec(log, compressed, run).disk; disk.complete && |disk.timing| < |log|;
      ShortIsNotFinal(log, Exec(log, compressed, run).disk);
      assert !CompleteIsFinal(log, Exec(log, compressed, run).disk);
    }
  }

  ghost predicate CompleteIsFinal(log: seq<Record>, disk: Disk) {
    disk.complete ==> IsFinal(log, disk)
  }

  lemma {:induction false} ShortIsNotFinal(log: seq<Record>, disk: Disk)
    requires disk.complete && |disk.timing| < |log|
    ensures !CompleteIsFinal(log, disk)
  {
  }

  lemma {:induction false} AlwaysFinal(log: seq<Record>, compressed: bool, run: seq<Step>)
    requires NormalLog(Lines(log)) && Rising(Lines(log))
    ensures CompleteIsFinal(log, Exec(log, compressed, run).disk)
  {
    hide Exec, NormalLog, Rising;
    ResumeEquivalence(log, compressed, run);
  }
}
