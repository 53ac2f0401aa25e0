/** What the session theorems are not vacuous about: every log can be stored, in
    one session or in two, and its client finishes. */
module SessionProgress {
  import opened Timespecs
  import opened IoLogs
  import opened Options
  import opened LocalStore
  import opened StoredPrefix
  import opened Session
  import opened SessionSafety
  import opened SessionRuns
  import opened SessionExact

  /** All records are stored, and the client has Exit to send. */
  ghost predicate AllStored(log: seq<Record>, s: System) {
    && s.link.Some? && !s.compressed && s.created && !s.disk.complete && |s.disk.timing| == |log| && Agrees(log, s.disk)
    && var k := s.link.value;
       && k.client == Client(SendExit, ZERO, Elapsed(Lines(log), |log|), ZERO, 0, |log|, [Exit])
       && k.toServer == [] && k.toClient == [LogId]
       && k.server.state.Running? && k.server.writing.None?
       && Stands(log, Store(s.disk, k.server.at), |log|, |log|)
  }

  lemma {:induction false} EmptyIsStored(log: seq<Record>) returns (run: seq<Step>)
    requires log == []
    ensures AllStored(log, Exec(log, false, run))
  {
    hide Exec, Agrees, Stands;
    AcceptOk(log);
    FormatsExit(log, NEW_CLIENT.(state := SendIo, queue := []), 0);
    assert [] + [Exit] == [Exit];
    hide FormatNext;
    run := Opened(log, 0);
    assert Store(EMPTY, StoreAccept().at) == StoreAccept();
  }

  lemma {:induction false} LastIsStored(log: seq<Record>) returns (run: seq<Step>)
    requires log != []
    ensures AllStored(log, Exec(log, false, run))
  {
    hide Exec, Agrees, Stands, StoreRecord, Elapsed, FormatNext, Openable;
    var i := |log| - 1;
    run := StoresFirst(log, i);
    var s := Exec(log, false, run);
    var k := s.link.value;
    FormatsExit(log, k.client.(queue := []), 0);
    assert [] + [Exit] == [Exit];
    StoreNext(log, Store(s.disk, k.server.at), i);
    run := SendsOne(log, s, 0, run);
    run := StoresOne(log, Exec(log, false, run), log[i], run);
    var st := StoreRecord(Store(s.disk, k.server.at), log[i]);
    assert [Data(log[i])][1..] == [] && Store(st.disk, st.at) == st;
  }

  /** Exit is stored and committed, and the client hears of it. */
  lemma {:induction false} Ending(log: seq<Record>, s: System, run0: seq<Step>) returns (run: seq<Step>)
    requires Exec(log, false, run0) == s && AllStored(log, s)
    ensures var t := Exec(log, false, run);
            t.disk == s.disk.(complete := true) && t.link.Some? && t.link.value.client.state.Finished? && t.link.value.client.queue == []
  {
    hide Exec, Agrees, Elapsed, Openable;
    var k := s.link.value;
    StandsLine(log, Store(s.disk, k.server.at), |log|, |log|);
    hide Stands;
    run := SendsOne(log, s, 0, run0);
    var t1 := Exec(log, false, run);
    assert [Exit][1..] == [] && [LogId] + [] == [LogId];
    var t2 := Apply(log, t1, ServerReceives);
    run := Extend(log, run, t1, ServerReceives, t2);
    run := Committed(log, t2, run);
  }

  lemma {:induction false} Committed(log: seq<Record>, s: System, run0: seq<Step>) returns (run: seq<Step>)
    requires Exec(log, false, run0) == s && s.link.Some?
    requires var k := s.link.value; k.server.commitDue && k.server.writing.None? && k.toClient == [LogId]
    requires var k := s.link.value; k.client.state.Closing? && k.client.elapsed == k.server.at.elapsed
    ensures var t := Exec(log, false, run); var k := s.link.value;
            t.disk == s.disk && t.link.Some? && t.link.value.client.state.Finished? && t.link.value.client.queue == k.client.queue
  {
    hide Exec;
    var p := s.link.value.server.at.elapsed;
    var both := [LogId, Commit(p)];
    assert [LogId] + [Commit(p)] == both && both[1..] == [Commit(p)] && [Commit(p)][1..] == [];
    var t1 := Apply(log, s, ServerCommits);
    var t2 := Apply(log, t1, ClientReceives);
    run := Extend(log, run0, s, ServerCommits, t1);
    run := Extend(log, run, t1, ClientReceives, t2);
    run := Extend(log, run, t2, ClientReceives, Apply(log, t2, ClientReceives));
  }

  /** Every log, whatever its delays, can be stored: some run leaves its files,
      marks them complete, and ends with a client that has finished and has
      nothing left to send. */
  lemma {:induction false} EveryLogCanBeStored(log: seq<Record>)
    ensures exists run ::
              var s := Exec(log, false, run);
              Stored(log, s.disk) && s.link.Some? && s.link.value.client.state.Finished? && s.link.value.client.queue == []
  {
    hide Exec, Agrees, Stands, IsFinal;
    var run;
    if log == [] {
      run := EmptyIsStored(log);
    } else {
      run := LastIsStored(log);
    }
    var s := Exec(log, false, run);
    AllStoredIsFinal(log, s.disk);
    FinalMarked(log, s.disk);
    run := Ending(log, s, run);
  }

  lemma {:induction false} FinalMarked(log: seq<Record>, disk: Disk)
    requires IsFinal(log, disk)
    ensures IsFinal(log, disk.(complete := true))
  {
  }

  /** A session broke after i records. */
  ghost predicate BrokenAfter(s: System, i: nat) {
    s.link.None? && |s.disk.timing| == i && !s.disk.complete
  }

  ghost predicate Stored(log: seq<Record>, disk: Disk) {
    disk.complete && IsFinal(log, disk)
  }

  lemma {:induction false} Mended(log: seq<Record>, i: nat) returns (broken: seq<Step>, run: seq<Step>)
    requires NormalLog(Lines(log)) && i < |log| && Sharp(log, i) && IsSet(log[i].delay) && IsSet(Elapsed(Lines(log), i))
    ensures broken <= run && BrokenAfter(Exec(log, false, broken), i)
    ensures Exec(log, false, run).disk.complete
  {
    hide Exec, Elapsed, FormatNext, Stands, NormalLog, Openable, Sharp, IsSet;
    broken, run := ResumesAt(log, i);
    var s := Exec(log, false, run);
    GoesOn(log, i);
    StandsIsOpenable(log, Store(s.disk, s.link.value.server.at), i, i);
    StandsLine(log, Store(s.disk, s.link.value.server.at), i, i);
    run := StoresRest(log, s, run);
  }

  /** A session can break after any number of records at which time has passed;
      the next one then stores exactly what is missing. */
  lemma {:induction false} EveryBreakCanBeMended(log: seq<Record>, i: nat)
    requires Timed(log) && i < |log| && IsSet(Elapsed(Lines(log), i))
    ensures exists broken, run ::
              broken <= run && BrokenAfter(Exec(log, false, broken), i) && Stored(log, Exec(log, false, run).disk)
  {
    RisingIsSharp(log, i);
    assert Lines(log)[i].delay == log[i].delay;
    hide Exec, Elapsed, NormalLog, Sharp, IsSet, IsFinal;
    var broken, run := Mended(log, i);
    ResumeEquivalence(log, false, run);
  }

  /** A restarted client sends the record after its restart point. */
  lemma {:induction false} GoesOn(log: seq<Record>, i: nat)
    requires NormalLog(Lines(log)) && i < |log| && IsSet(Elapsed(Lines(log), i)) && IsSet(log[i].delay)
    ensures var p := Elapsed(Lines(log), i);
            var d := FormatNext(log, Client(SendIo, p, p, ZERO, i, i, []), 0);
            d.state.SendIo? && !IsSet(d.restart) && d.next == i + 1 && d.queue == [Data(log[i])]
  {
    var p := Elapsed(Lines(log), i);
    var e := Plus(p, log[i].delay);
    assert Lines(log)[i].delay == log[i].delay;
    ElapsedNormal(Lines(log), i);
    NotSetIsZero(log[i].delay);
    CmpIsOrderOfInstants(p, e, Ge);
    hide Elapsed, Cmp, Plus;
    assert [] + [Data(log[i])] == [Data(log[i])];
  }
}
