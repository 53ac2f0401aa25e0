/** Building runs step by step, and two that show what the conditions of the
    session theorems are for. */
module SessionRuns {
  import opened Timespecs
  import opened IoLogs
  import opened Options
  import opened ResumeSearch
  import opened LocalStore
  import opened Session

  const SIZE := WindowSize(24, 80)
  const SECOND := Timespec(1, 0)
  const TWO_SECONDS := Timespec(2, 0)
  const EMPTY := StoreAccept().disk
  const NEW_CLIENT := Client(RecvHello, ZERO, ZERO, ZERO, 0, 0, [Hello])

  lemma {:induction false} ExecStep(log: seq<Record>, compressed: bool, run: seq<Step>, step: Step)
    ensures Exec(log, compressed, run + [step]) == Apply(log, Exec(log, compressed, run), step)
  {
    assert (run + [step])[..|run|] == run;
  }

  /** One more step of a run. */
  lemma {:induction false} Extend(log: seq<Record>, run: seq<Step>, s: System, step: Step, t: System) returns (run': seq<Step>)
    requires Exec(log, false, run) == s && Apply(log, s, step) == t
    ensures run <= run' && Exec(log, false, run') == t
  {
    ExecStep(log, false, run, step);
    run' := run + [step];
  }

  /** A first session up to the point where the server waits for records and
      the client has queued as many as `room` lets it. */
  lemma {:induction false} Opened(log: seq<Record>, room: nat) returns (run: seq<Step>)
    ensures var c := FormatNext(log, NEW_CLIENT.(state := SendIo, queue := []), room);
            Exec(log, false, run) ==
            System(EMPTY, true, false, Some(Link(c, Server(Running, StoreAccept().at, None, false), [], [LogId])), {})
  {
    hide FormatNext;
    var s0 := System(NO_LOG, false, false, None, {});
    var k1 := Link(NEW_CLIENT, NEW_SERVER, [], [ServerHello]);
    var k2 := Link(NEW_CLIENT.(state := SendAccept, queue := [Hello, Accept]), NEW_SERVER, [], []);
    var c := FormatNext(log, NEW_CLIENT.(state := SendIo, queue := []), room);
    assert [ServerHello][1..] == [] && [Hello] + [Accept] == [Hello, Accept];
    run := Extend(log, [], s0, ConnectFresh, s0.(link := Some(k1)));
    run := Extend(log, run, s0.(link := Some(k1)), ClientReceives, s0.(link := Some(k2)));
    run := Accepted(log, room, run);
  }

  lemma {:induction false} Accepted(log: seq<Record>, room: nat, run0: seq<Step>) returns (run: seq<Step>)
    requires Exec(log, false, run0) ==
             System(NO_LOG, false, false, Some(Link(NEW_CLIENT.(state := SendAccept, queue := [Hello, Accept]), NEW_SERVER, [], [])), {})
    ensures var c := FormatNext(log, NEW_CLIENT.(state := SendIo, queue := []), room);
            Exec(log, false, run) ==
            System(EMPTY, true, false, Some(Link(c, Server(Running, StoreAccept().at, None, false), [], [LogId])), {})
  {
    hide FormatNext, Exec;
    var s2 := Exec(log, false, run0);
    var c := FormatNext(log, NEW_CLIENT.(state := SendIo, queue := []), room);
    var s3 := s2.(link := Some(Link(c, NEW_SERVER, [Hello, Accept], [])));
    var s4 := s2.(link := Some(Link(c, NEW_SERVER, [Accept], [])));
    var c2, both := s2.link.value.client, [Hello, Accept];
    assert c2.queue[2..] == [] && c2.queue[..2] == both && s2.link.value.toServer + both == both;
    assert c2.(queue := c2.queue[2..]).(state := SendIo) == NEW_CLIENT.(state := SendIo, queue := []);
    assert Send(log, c2, 2, room) == c;
    var none: seq<ServerMsg> := [];
    assert both[1..] == [Accept] && [Accept][1..] == [] && none + [LogId] == [LogId] && none + none == none;
    run := Extend(log, run0, s2, ClientSends(2, room), s3);
    run := Extend(log, run, s3, ServerReceives, s4);
    run := Extend(log, run, s4, ServerReceives, Apply(log, s4, ServerReceives));
  }

  lemma {:induction false} FormatsOne(log: seq<Record>, c: Client, room: nat)
    requires !IsSet(c.restart) && c.next < |log|
    ensures var r := log[c.next];
            var e := c.(elapsed := Plus(c.elapsed, r.delay), next := c.next + 1, restart := ZERO, queue := c.queue + [Data(r)]);
            FormatNext(log, c, room) == if room == 0 then e else FormatNext(log, e, room - 1)
  {
  }

  lemma {:induction false} FormatsExit(log: seq<Record>, c: Client, room: nat)
    requires c.next >= |log|
    ensures FormatNext(log, c, room) == c.(state := SendExit, queue := c.queue + [Exit])
  {
  }

  /** The client writes its only queued message. */
  lemma {:induction false} SendsOne(log: seq<Record>, s: System, room: nat, run0: seq<Step>) returns (run: seq<Step>)
    requires Exec(log, false, run0) == s && s.link.Some? && s.link.value.toServer == [] && |s.link.value.client.queue| == 1
    ensures run0 <= run
    ensures var k := s.link.value; var c := k.client;
            Exec(log, false, run) ==
            s.(link := Some(k.(client := Completion(log, c.(queue := []), room), toServer := c.queue)))
  {
    hide Exec, Completion;
    var k := s.link.value;
    var q := k.client.queue;
    assert q[1..] == [] && q[..1] == q && k.toServer + q == q;
    run := Extend(log, run0, s, ClientSends(1, room), Apply(log, s, ClientSends(1, room)));
  }

  /** A server that stores one record. */
  lemma {:induction false} StoresOne(log: seq<Record>, s: System, r: Record, run0: seq<Step>) returns (run: seq<Step>)
    requires Exec(log, false, run0) == s && s.link.Some?
    requires var k := s.link.value; k.server.state.Running? && k.server.writing.None? && Openable(Store(s.disk, k.server.at))
    requires var k := s.link.value; k.toServer != [] && k.toServer[0] == Data(r)
    ensures run0 <= run
    ensures var k := s.link.value; var st := StoreRecord(Store(s.disk, k.server.at), r);
            Exec(log, false, run) ==
            s.(disk := st.disk, link := Some(k.(server := k.server.(at := st.at, commitDue := true), toServer := k.toServer[1..])))
  {
    hide Exec, StoreLine, Openable;
    var k := s.link.value;
    var st := StoreRecordData(Store(s.disk, k.server.at), r);
    DataOpenable(Store(s.disk, k.server.at), r);
    hide StoreRecordData;
    assert k.toClient + [] == k.toClient && Store(st.disk, st.at) == st;
    var t := s.(disk := st.disk, link := Some(k.(server := k.server.(at := st.at, writing := Some(r)), toServer := k.toServer[1..])));
    run := Extend(log, run0, s, ServerReceives, t);
    run := Extend(log, run, t, ServerStores, Apply(log, t, ServerStores));
  }

  lemma {:induction false} DataOpenable(s: Store, r: Record)
    requires Openable(s)
    ensures Openable(StoreRecordData(s, r))
  {
  }

  /** A commit point is sent, and the client hears of it. */
  lemma {:induction false} CommitHeard(log: seq<Record>, s: System, run0: seq<Step>) returns (run: seq<Step>)
    requires Exec(log, false, run0) == s && s.link.Some?
    requires var k := s.link.value; k.server.state.Running? && k.server.writing.None? && k.server.commitDue
    requires var k := s.link.value; k.toClient == [LogId] && !k.client.state.Finished? && !k.client.state.Failed?
    ensures run0 <= run
    ensures var k := s.link.value; var p := k.server.at.elapsed;
            Exec(log, false, run) ==
            s.(link := Some(k.(client := ClientHears(k.client, Commit(p)), server := k.server.(commitDue := false), toClient := [])),
               known := s.known + {p})
  {
    hide Exec, Cmp;
    var k := s.link.value;
    var p, v := k.server.at.elapsed, k.server.(commitDue := false);
    var both := [LogId, Commit(p)];
    assert [LogId] + [Commit(p)] == both && both[1..] == [Commit(p)] && [Commit(p)][1..] == [];
    var t := s.(link := Some(k.(server := v, toClient := both)));
    var u := s.(link := Some(k.(server := v, toClient := [Commit(p)])));
    run := Extend(log, run0, s, ServerCommits, t);
    run := Extend(log, run, t, ClientReceives, u);
    run := Extend(log, run, u, ClientReceives, Apply(log, u, ClientReceives));
  }

  /** A client reconnects at a known point and has queued its restart. */
  lemma {:induction false} Reconnected(log: seq<Record>, disk: Disk, k: nat, p: Timespec, run0: seq<Step>) returns (run: seq<Step>)
    requires Exec(log, false, run0) == System(disk, true, false, None, {p}) && IsSet(p)
    requires ResumeIndex(Lines(log), ALL_STREAMS, p, 0) == Some(k)
    ensures run0 <= run
    ensures Exec(log, false, run) ==
            System(disk, true, false,
                   Some(Link(Client(SendRestart, p, p, ZERO, k, k, [Hello, Restart(p)]), NEW_SERVER, [], [])), {p})
  {
    hide Exec, ResumeIndex;
    var s := Exec(log, false, run0);
    var c := Client(RecvHello, p, p, ZERO, k, k, [Hello]);
    var t := s.(link := Some(Link(c, NEW_SERVER, [], [ServerHello])));
    run := Extend(log, run0, s, ConnectRestart(p), t);
    assert [ServerHello][1..] == [] && [Hello] + [Restart(p)] == [Hello, Restart(p)];
    run := Extend(log, run, t, ClientReceives, Apply(log, t, ClientReceives));
  }

  /** It has sent its restart and goes on formatting. */
  lemma {:induction false} RestartSent(log: seq<Record>, s: System, p: Timespec, room: nat, run0: seq<Step>) returns (run: seq<Step>)
    requires Exec(log, false, run0) == s && s.link.Some? && s.link.value.toServer == []
    requires s.link.value.client.state.SendRestart? && s.link.value.client.queue == [Hello, Restart(p)]
    ensures run0 <= run
    ensures var k := s.link.value; var c := FormatNext(log, k.client.(state := SendIo, queue := []), room);
            Exec(log, false, run) == s.(link := Some(k.(client := c, toServer := [Hello, Restart(p)])))
  {
    hide Exec, FormatNext;
    var k := s.link.value;
    var c, both := k.client, [Hello, Restart(p)];
    assert c.queue[2..] == [] && c.queue[..2] == both && k.toServer + both == both;
    assert c.(queue := c.queue[2..]).(state := SendIo) == c.(state := SendIo, queue := []);
    run := Extend(log, run0, s, ClientSends(2, room), Apply(log, s, ClientSends(2, room)));
  }

  /** The server takes a restart and waits for records. */
  lemma {:induction false} ServerRestarted(log: seq<Record>, s: System, p: Timespec, run0: seq<Step>) returns (run: seq<Step>)
    requires Exec(log, false, run0) == s && !s.compressed && s.link.Some? && StoreRestart(s.disk, p, false).Some?
    requires s.link.value.server == NEW_SERVER && s.link.value.toServer == [Hello, Restart(p)] && s.link.value.toClient == []
    ensures run0 <= run
    ensures var k := s.link.value; var r := StoreRestart(s.disk, p, false).value;
            Exec(log, false, run) ==
            s.(disk := r.disk, link := Some(k.(server := Server(Running, r.at, None, false), toServer := [])))
  {
    hide Exec, StoreRestart;
    var k := s.link.value;
    assert k.toServer[1..] == [Restart(p)] && [Restart(p)][1..] == [] && k.toClient + [] == k.toClient;
    var t := s.(link := Some(k.(toServer := [Restart(p)])));
    run := Extend(log, run0, s, ServerReceives, t);
    run := Extend(log, run, t, ServerReceives, Apply(log, t, ServerReceives));
  }

  // ---- finished before Exit is sent ----

  const ONE_RECORD: seq<Record> := [Record(SECOND, SIZE)]
  const LEAVING := Client(SendExit, ZERO, SECOND, ZERO, 0, 1, [Data(ONE_RECORD[0]), Exit])

  lemma {:induction false} LeavingFormatted()
    ensures FormatNext(ONE_RECORD, NEW_CLIENT.(state := SendIo, queue := []), 1) == LEAVING
  {
    hide FormatNext;
    var c := Client(SendIo, ZERO, SECOND, ZERO, 0, 1, [Data(ONE_RECORD[0])]);
    FormatsOne(ONE_RECORD, NEW_CLIENT.(state := SendIo, queue := []), 1);
    assert Plus(ZERO, SECOND) == SECOND && [] + [Data(ONE_RECORD[0])] == c.queue;
    FormatsExit(ONE_RECORD, c, 0);
    assert c.queue + [Exit] == LEAVING.queue;
  }

  /** The only record is stored, and the client has Exit left to send. */
  lemma {:induction false} OnlyStored() returns (run: seq<Step>)
    ensures Exec(ONE_RECORD, false, run) ==
            System(ONE_LINE, true, false,
                   Some(Link(LEAVING.(queue := [Exit]), Server(Running, FIRST_AT, None, true), [], [LogId])), {})
  {
    var log := ONE_RECORD;
    LeavingFormatted();
    LinesStored();
    hide Exec, FormatNext, StoreAccept, StoreLine;
    run := Opened(log, 1);
    var s := Exec(log, false, run);
    var k := s.link.value;
    assert k.client.queue[1..] == [Exit] && k.toServer + k.client.queue[..1] == [Data(log[0])];
    var t := s.(link := Some(k.(client := LEAVING.(queue := [Exit]), toServer := [Data(log[0])])));
    run := Extend(log, run, s, ClientSends(1, 0), t);
    run := StoresOne(log, t, log[0], run);
  }

  /** A client can finish, and leave, before its exit message is sent: a commit
      point for the last record may arrive first.  The log then holds every
      record and is never marked complete. */
  lemma {:induction false} FinishedBeforeExitSent()
    ensures exists run :: var s := Exec(ONE_RECORD, false, run);
              && s.link.Some? && s.link.value.client.state.Finished?
              && s.link.value.client.queue == [Exit] && s.link.value.toServer == [] && !s.disk.complete
  {
    hide Exec;
    var run := OnlyStored();
    run := CommitHeard(ONE_RECORD, Exec(ONE_RECORD, false, run), run);
    assert Exec(ONE_RECORD, false, run).link.value.client.state.Finished?;
  }

  // ---- a restart before the end of the file ----

  const THREE_RECORDS: seq<Record> := [Record(SECOND, SIZE), Record(SECOND, SIZE), Record(SECOND, SIZE)]
  const LINE := SizeLine(SECOND, 24, 80)
  const THREE_LINES := Disk([LINE, LINE, LINE], EMPTY.streams, false)
  const ALL_QUEUED := Client(SendIo, ZERO, Timespec(3, 0), ZERO, 0, 3, [Data(THREE_RECORDS[0]), Data(THREE_RECORDS[1]), Data(THREE_RECORDS[2])])
  const ALL_SENT := Client(SendExit, ZERO, Timespec(3, 0), ZERO, 0, 3, [Exit])

  const QUEUED_ONE := Client(SendIo, ZERO, SECOND, ZERO, 0, 1, [Data(Record(SECOND, SIZE))])
  const QUEUED_TWO := Client(SendIo, ZERO, TWO_SECONDS, ZERO, 0, 2, [Data(Record(SECOND, SIZE)), Data(Record(SECOND, SIZE))])

  lemma {:induction false} LastFormatted()
    ensures FormatNext(THREE_RECORDS, QUEUED_TWO, 0) == ALL_QUEUED
  {
    FormatsOne(THREE_RECORDS, QUEUED_TWO, 0);
    hide FormatNext;
    assert Plus(TWO_SECONDS, SECOND) == Timespec(3, 0) && QUEUED_TWO.queue + [Data(THREE_RECORDS[2])] == ALL_QUEUED.queue;
  }

  lemma {:induction false} MiddleFormatted()
    ensures FormatNext(THREE_RECORDS, QUEUED_ONE, 1) == ALL_QUEUED
  {
    LastFormatted();
    hide FormatNext;
    FormatsOne(THREE_RECORDS, QUEUED_ONE, 1);
    assert Plus(SECOND, SECOND) == TWO_SECONDS && QUEUED_ONE.queue + [Data(THREE_RECORDS[1])] == QUEUED_TWO.queue;
  }

  lemma {:induction false} AllFormatted()
    ensures FormatNext(THREE_RECORDS, NEW_CLIENT.(state := SendIo, queue := []), 2) == ALL_QUEUED
  {
    MiddleFormatted();
    hide FormatNext;
    FormatsOne(THREE_RECORDS, NEW_CLIENT.(state := SendIo, queue := []), 2);
    assert Plus(ZERO, SECOND) == SECOND && [] + [Data(THREE_RECORDS[0])] == QUEUED_ONE.queue;
  }

  lemma {:induction false} AllSent()
    ensures FormatNext(THREE_RECORDS, ALL_QUEUED.(queue := []), 0) == ALL_SENT
  {
  }

  /** All three records are on their way. */
  lemma {:induction false} ThreeSent() returns (run: seq<Step>)
    ensures Exec(THREE_RECORDS, false, run) ==
            System(EMPTY, true, false,
                   Some(Link(ALL_SENT, Server(Running, StoreAccept().at, None, false), ALL_QUEUED.queue, [LogId])), {})
  {
    var log := THREE_RECORDS;
    AllFormatted();
    AllSent();
    hide Exec, FormatNext, StoreAccept;
    run := Opened(log, 2);
    var s := Exec(log, false, run);
    var q := ALL_QUEUED.queue;
    assert q[3..] == [] && q[..3] == q && s.link.value.toServer + q == q;
    run := Extend(log, run, s, ClientSends(3, 0), Apply(log, s, ClientSends(3, 0)));
  }

  const ONE_LINE := Disk([LINE], EMPTY.streams, false)
  const FIRST_AT := Handles(1, StoreAccept().at.positions, SECOND)
  const TOLD := ALL_SENT.(committed := SECOND)

  lemma {:induction false} LinesStored()
    ensures StoreLine(Store(EMPTY, StoreAccept().at), LINE) == Store(ONE_LINE, FIRST_AT)
    ensures var two := StoreLine(Store(ONE_LINE, FIRST_AT), LINE);
            Openable(two) && StoreLine(two, LINE).disk == THREE_LINES
    ensures Openable(StoreAccept()) && Openable(Store(ONE_LINE, FIRST_AT))
  {
    assert [] + [LINE] == [LINE] && [LINE] + [LINE] + [LINE] == [LINE, LINE, LINE] && Plus(ZERO, SECOND) == SECOND;
  }

  /** The client knows a commit point for the first of three records. */
  lemma {:induction false} FirstOfThreeCommitted() returns (run: seq<Step>)
    ensures Exec(THREE_RECORDS, false, run) ==
            System(ONE_LINE, true, false,
                   Some(Link(TOLD, Server(Running, FIRST_AT, None, false), ALL_QUEUED.queue[1..], [])), {SECOND})
  {
    var log := THREE_RECORDS;
    LinesStored();
    hide Exec, FormatNext, StoreAccept, StoreLine;
    run := ThreeSent();
    run := StoresOne(log, Exec(log, false, run), log[0], run);
    run := CommitHeard(log, Exec(log, false, run), run);
  }

  /** All three are stored when the connection is lost. */
  lemma {:induction false} ThreeStored() returns (run: seq<Step>)
    ensures Exec(THREE_RECORDS, false, run) == System(THREE_LINES, true, false, None, {SECOND})
  {
    var log := THREE_RECORDS;
    LinesStored();
    hide Exec, FormatNext, StoreAccept, StoreLine;
    run := FirstOfThreeCommitted();
    run := StoresOne(log, Exec(log, false, run), log[1], run);
    run := StoresOne(log, Exec(log, false, run), log[2], run);
    var s := Exec(log, false, run);
    run := Extend(log, run, s, Disconnect, s.(link := None));
  }

  lemma {:induction false} OneSecond(t: seq<TimingLine>)
    requires t != [] && t[0] == LINE
    ensures forall open: set<StreamId> :: ResumeIndex(t, open, SECOND, 0) == Some(1)
  {
    assert Elapsed(t, 1) == Plus(Elapsed(t, 0), SECOND) == SECOND;
  }

  const AGAIN := Client(SendIo, ZERO, TWO_SECONDS, ZERO, 1, 2, [Data(THREE_RECORDS[1])])

  lemma {:induction false} AgainFormatted()
    ensures FormatNext(THREE_RECORDS, Client(SendIo, SECOND, SECOND, ZERO, 1, 1, []), 0) == AGAIN
  {
    assert Plus(SECOND, SECOND) == TWO_SECONDS && !Cmp(SECOND, TWO_SECONDS, Ge);
  }

  lemma {:induction false} FirstLineFound()
    ensures var r := StoreRestart(THREE_LINES, SECOND, false);
            r.Some? && r.value.disk == THREE_LINES && r.value.at.line == 1 && r.value.at.elapsed == SECOND && Openable(r.value)
  {
    OneSecond(THREE_LINES.timing);
    hide ResumeIndex;
  }

  /** The client has come back to the first record and sent the second again. */
  lemma {:induction false} SecondSentAgain() returns (run: seq<Step>)
    ensures StoreRestart(THREE_LINES, SECOND, false).Some?
    ensures var s := Exec(THREE_RECORDS, false, run); var r := StoreRestart(THREE_LINES, SECOND, false).value;
            && s.disk == THREE_LINES && s.link.Some?
            && s.link.value.toServer == [Data(THREE_RECORDS[1])] && s.link.value.server == Server(Running, r.at, None, false)
  {
    var log := THREE_RECORDS;
    OneSecond(Lines(log));
    AgainFormatted();
    FirstLineFound();
    hide Exec, ResumeIndex, FormatNext, StoreRestart, Openable;
    run := ThreeStored();
    run := Reconnected(log, THREE_LINES, 1, SECOND, run);
    run := RestartSent(log, Exec(log, false, run), SECOND, 0, run);
    run := ServerRestarted(log, Exec(log, false, run), SECOND, run);
    run := SendsOne(log, Exec(log, false, run), 0, run);
  }

  /** A commit point can be due that is not the total of the timing file: the
      session has gone back to an earlier record, and the file is longer. */
  lemma {:induction false} CommitBeforeEndOfFile()
    ensures exists run :: var s := Exec(THREE_RECORDS, false, run);
              && s.link.Some? && s.link.value.server.commitDue && s.link.value.server.writing.None?
              && s.link.value.server.at.line < |s.disk.timing|
              && s.link.value.server.at.elapsed != Elapsed(s.disk.timing, |s.disk.timing|)
  {
    var log := THREE_RECORDS;
    FirstLineFound();
    hide Exec, FormatNext, StoreRestart;
    var run := SecondSentAgain();
    run := StoresOne(log, Exec(log, false, run), log[1], run);
    var timing := Exec(log, false, run).disk.timing;
    assert timing == [LINE, LINE, LINE];
    ThreeSeconds(timing);
  }

  lemma {:induction false} ThreeSeconds(t: seq<TimingLine>)
    requires t == [LINE, LINE, LINE]
    ensures Elapsed(t, 3) == Timespec(3, 0)
  {
    assert Elapsed(t, 0) == ZERO && Elapsed(t, 1) == SECOND && Elapsed(t, 2) == TWO_SECONDS;
  }
}
