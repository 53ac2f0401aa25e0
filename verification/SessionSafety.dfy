/** What every reachable state of a session satisfies, and what follows. */
module SessionSafety {
  import opened Timespecs
  import opened IoLogs
  import opened Options
  import opened ResumeSearch
  import opened LocalStore
  import opened StoredPrefix
  import opened Session

  // ---- the invariant ----

  function Datas(log: seq<Record>, i: nat, j: nat): seq<ClientMsg>
    requires i <= j <= |log|
  {
    seq(j - i, x requires 0 <= x < j - i => Data(log[i + x]))
  }

  /** The client has come to the end of its log and formatted Exit. */
  predicate Leaving(c: Client) {
    c.state.SendExit? || c.state.Closing?
  }

  predicate Sending(c: Client) {
    c.state.SendIo? || Leaving(c) || c.state.Finished?
  }

  /** Exit ends what is under way; a finished client may have stopped before. */
  predicate Ends(c: Client, flow: seq<ClientMsg>) {
    if c.state.Finished? then flow != [] && flow[|flow| - 1].Exit? else Leaving(c)
  }

  /** The messages that follow once the server has the records before `from`. */
  function Body(log: seq<Record>, c: Client, from: nat, end: bool): seq<ClientMsg>
    requires from <= c.next <= |log|
  {
    Datas(log, from, c.next) + if end then [Exit] else []
  }

  function Opening(log: seq<Record>, c: Client): ClientMsg
    requires c.first <= |log|
  {
    if c.first == 0 then Accept else Restart(Elapsed(Lines(log), c.first))
  }

  ghost predicate ClientOk(log: seq<Record>, c: Client) {
    && c.first <= c.next <= |log| && (c.first > 0 ==> IsSet(Elapsed(Lines(log), c.first)))
    && c.elapsed == Elapsed(Lines(log), c.next)
    && (IsSet(c.restart) ==> c.next == c.first && c.restart == c.elapsed)
    && (c.state.RecvHello? || c.state.SendAccept? || c.state.SendRestart? ==>
          c.next == c.first && (IsSet(c.restart) <==> c.first > 0))
    && (c.state.SendAccept? || c.state.SendRestart? ==> c.queue != [])
    && (c.state.SendIo? ==> c.queue != [] && c.first < c.next && c.queue[|c.queue| - 1].Data?)
    && (Leaving(c) ==> c.next == |log|)
    && (c.state.SendExit? ==> c.queue != [])
    && (c.state.Closing? ==> c.queue == [])
  }

  /** p is the time of at least `from` and at most n records, and not of none
      unless there are none. */
  ghost predicate Reached(log: seq<Record>, p: Timespec, from: nat, n: nat) {
    exists j: nat :: from <= j <= n && j <= |log| && (0 < j || log == []) && Elapsed(Lines(log), j) == p
  }

  /** What may be on its way to the client: commit points that never decrease,
      each covering at least the records before this session and no more than
      the n records stored. */
  ghost predicate Downstream(log: seq<Record>, from: nat, last: Timespec, ms: seq<ServerMsg>, n: nat)
    decreases ms
  {
    if ms == [] then n <= |log| && Nanos(last) <= Nanos(Elapsed(Lines(log), n))
    else match ms[0]
         case LogId => Downstream(log, from, last, ms[1..], n)
         case Commit(p) => Nanos(last) <= Nanos(p) && Reached(log, p, from, n) && Downstream(log, from, p, ms[1..], n)
         case _ => false
  }

  /** The client's own commit point, if it has one, is not before its session. */
  ghost predicate CommittedOk(log: seq<Record>, c: Client)
    requires c.first <= |log|
  {
    IsSet(c.committed) ==> Nanos(Elapsed(Lines(log), c.first)) <= Nanos(c.committed)
  }

  ghost predicate InitialOk(log: seq<Record>, s: System, k: Link)
    requires ClientOk(log, k.client)
  {
    var c, v := k.client, k.server;
    var flow := k.toServer + c.queue;
    && v.writing.None? && !v.commitDue && !c.state.Finished? && !c.state.Failed? && !IsSet(c.committed)
    && (s.created <==> c.first > 0) && (!s.compressed ==> c.first <= |s.disk.timing|)
    && k.toClient == (if c.state.RecvHello? then [ServerHello] else [])
    && var rest := if c.state.RecvHello? then [] else [Opening(log, c)] + Body(log, c, c.first, Leaving(c));
       flow == [Hello] + rest || flow == rest
  }

  /** Records whose data is in the streams. */
  function StoredData(v: Server): nat {
    v.at.line + if v.writing.Some? then 1 else 0
  }

  /** Under way are the records formatted from `from` on, and Exit behind the
      last record of the log. */
  ghost predicate FlowOk(log: seq<Record>, c: Client, from: nat, flow: seq<ClientMsg>) {
    from <= c.next <= |log| && flow == Body(log, c, from, Ends(c, flow)) && (Ends(c, flow) ==> c.next == |log|)
  }

  /** With a delay on every record after the first, finished means stored. */
  ghost predicate FinishedOk(log: seq<Record>, c: Client, stored: nat) {
    c.state.Finished? && LaterDelays(Lines(log)) ==> c.next == stored == |log|
  }

  ghost predicate RunningOk(log: seq<Record>, s: System, k: Link)
    requires ClientOk(log, k.client)
  {
    var c, v, m := k.client, k.server, StoredData(k.server);
    && s.created && !s.disk.complete && Sending(c)
    && c.first <= v.at.line && m <= c.next
    && Stands(log, Store(s.disk, v.at), v.at.line, m)
    && (v.writing.Some? ==> v.writing.value == log[v.at.line])
    && (s.compressed || c.first == 0 ==> v.at.line == |s.disk.timing|)
    && FlowOk(log, c, m, k.toServer + c.queue)
    && Downstream(log, c.first, c.committed, k.toClient, v.at.line) && CommittedOk(log, c)
    && (v.commitDue ==> c.first < v.at.line)
    && FinishedOk(log, c, |s.disk.timing|)
  }

  ghost predicate ExitedOk(log: seq<Record>, s: System, k: Link)
    requires ClientOk(log, k.client)
  {
    var c, v := k.client, k.server;
    && s.created && v.writing.None? && v.at.line == |log| == |s.disk.timing|
    && v.at.elapsed == Elapsed(Lines(log), |log|)
    && k.toServer + c.queue == [] && (c.state.Closing? || c.state.Finished?) && c.next == |log|
    && Downstream(log, c.first, c.committed, k.toClient, |log|) && CommittedOk(log, c)
  }

  ghost predicate RefusedOk(s: System, k: Link) {
    && k.server.writing.None? && !k.server.commitDue
    && (k.toClient == [Error] || k.toClient == [])
    && (s.disk.complete || k.client.first > |s.disk.timing|) && !k.client.state.Finished?
  }

  ghost predicate LinkOk(log: seq<Record>, s: System, k: Link) {
    && ClientOk(log, k.client)
    && match k.server.state
       case Initial => InitialOk(log, s, k)
       case Running => RunningOk(log, s, k)
       case Exited => ExitedOk(log, s, k)
       case Done => ExitedOk(log, s, k) && !k.server.commitDue
       case Refused => RefusedOk(s, k)
  }

  ghost predicate KnownOk(log: seq<Record>, s: System) {
    forall p :: p in s.known ==> s.created && Reached(log, p, 0, if s.compressed then |log| else |s.disk.timing|)
  }

  ghost predicate Inv(log: seq<Record>, s: System) {
    && (if s.created then Agrees(log, s.disk) else s.disk == NO_LOG)
    && KnownOk(log, s)
    && (s.link.Some? ==> LinkOk(log, s, s.link.value))
  }

  /** The log's times are normalised, and once time has passed every record
      adds some; records without delay can only come first. */
  ghost predicate Timed(log: seq<Record>) {
    NormalLog(Lines(log)) && Rising(Lines(log))
  }

  // ---- small facts ----

  lemma {:induction false} ReachedGrows(log: seq<Record>, p: Timespec, from: nat, n: nat, from': nat, n': nat)
    requires Reached(log, p, from, n) && from' <= from && n <= n'
    ensures Reached(log, p, from', n')
  {
  }

  lemma {:induction false} DownstreamGrows(log: seq<Record>, from: nat, last: Timespec, ms: seq<ServerMsg>, n: nat, n': nat)
    requires Timed(log) && Downstream(log, from, last, ms, n) && n <= n' <= |log|
    ensures Downstream(log, from, last, ms, n')
    decreases ms
  {
    hide Rising;
    if ms == [] {
      ElapsedMonotone(Lines(log), n, n');
    } else {
      match ms[0] {
        case LogId => DownstreamGrows(log, from, last, ms[1..], n, n');
        case Commit(p) =>
          ReachedGrows(log, p, from, n, from, n');
          DownstreamGrows(log, from, p, ms[1..], n, n');
      }
    }
  }

  lemma {:induction false} DownstreamCommit(log: seq<Record>, from: nat, last: Timespec, ms: seq<ServerMsg>, n: nat)
    requires Downstream(log, from, last, ms, n) && from <= n <= |log| && (0 < n || log == [])
    ensures Downstream(log, from, last, ms + [Commit(Elapsed(Lines(log), n))], n)
    decreases ms
  {
    var p := Commit(Elapsed(Lines(log), n));
    if ms == [] {
      assert ms + [p] == [p] && [p][1..] == [];
    } else {
      assert (ms + [p])[0] == ms[0] && (ms + [p])[1..] == ms[1..] + [p];
      match ms[0] {
        case LogId => DownstreamCommit(log, from, last, ms[1..], n);
        case Commit(q) => DownstreamCommit(log, from, q, ms[1..], n);
      }
    }
  }

  lemma {:induction false} DatasExtend(log: seq<Record>, i: nat, j: nat, k: nat)
    requires i <= j <= k <= |log|
    ensures Datas(log, i, j) + Datas(log, j, k) == Datas(log, i, k)
  {
  }

  // ---- the client ----

  /** c after formatting record c.next. */
  function Formatted(log: seq<Record>, c: Client): Client
    requires c.next < |log|
  {
    c.(elapsed := Plus(c.elapsed, log[c.next].delay), next := c.next + 1, restart := ZERO,
       queue := c.queue + [Data(log[c.next])])
  }

  ghost predicate Formatting(log: seq<Record>, c: Client) {
    && c.state.SendIo? && c.first <= c.next <= |log| && c.elapsed == Elapsed(Lines(log), c.next)
    && (IsSet(c.restart) ==> c.next == c.first && c.restart == c.elapsed)
  }

  /** No record is skipped: the first one after the restart point is later. */
  lemma {:induction false} FormatNextStep(log: seq<Record>, c: Client, room: nat)
    requires Timed(log) && Formatting(log, c) && c.next < |log|
    ensures var e := Formatted(log, c);
            Formatting(log, e) && FormatNext(log, c, room) == if room == 0 then e else FormatNext(log, e, room - 1)
  {
    hide Plus, Cmp, Nanos, Rising;
    if IsSet(c.restart) {
      LaterPoint(log, c.next);
    }
  }

  lemma {:induction false} LaterPoint(log: seq<Record>, i: nat)
    requires Timed(log) && i < |log| && IsSet(Elapsed(Lines(log), i))
    ensures !Cmp(Elapsed(Lines(log), i), Elapsed(Lines(log), i + 1), Ge)
  {
    var t := Lines(log);
    hide Rising, Cmp;
    ElapsedMonotone(t, i, i + 1);
    ElapsedNormal(t, i);
    ElapsedNormal(t, i + 1);
    NotSetIsZero(Elapsed(t, i));
    NotSetIsZero(Elapsed(t, i + 1));
    ElapsedRises(t, i, i + 1);
    CmpIsOrderOfInstants(Elapsed(t, i), Elapsed(t, i + 1), Ge);
  }

  /** What formatting adds to the queue: the next records in order, at least
      one of them or the exit message. */
  lemma {:induction false} FormatNextAdds(log: seq<Record>, c: Client, room: nat)
    requires Timed(log) && Formatting(log, c)
    ensures var d := FormatNext(log, c, room);
            && c.next <= d.next <= |log| && d.elapsed == Elapsed(Lines(log), d.next)
            && (IsSet(d.restart) ==> d.next == d.first && d.restart == d.elapsed)
            && (if d.state.SendIo? then c.next < d.next else d.state.SendExit? && d.next == |log|)
            && d.queue == c.queue + Datas(log, c.next, d.next) + if d.state.SendExit? then [Exit] else []
    decreases |log| - c.next
  {
    hide Datas, Elapsed, Plus;
    if c.next < |log| {
      FormatNextStep(log, c, room);
      hide FormatNext;
      OneData(log, c.next);
      var e := Formatted(log, c);
      if room > 0 {
        FormatNextAdds(log, e, room - 1);
        var f := FormatNext(log, e, room - 1);
        DatasExtend(log, c.next, e.next, f.next);
        assert e.queue + Datas(log, e.next, f.next) == c.queue + (Datas(log, c.next, e.next) + Datas(log, e.next, f.next));
      }
    } else {
      NoDatas(log, c.next);
    }
  }

  lemma {:induction false} OneData(log: seq<Record>, i: nat)
    requires i < |log|
    ensures Datas(log, i, i + 1) == [Data(log[i])]
  {
  }

  /** What a write callback adds to the messages that are under way. */
  function Added(log: seq<Record>, c: Client, d: Client): seq<ClientMsg>
    requires c.next <= d.next <= |log|
  {
    Datas(log, c.next, d.next) + if Leaving(d) && !Leaving(c) then [Exit] else []
  }

  /** d is c after putting `sent` on the wire. */
  ghost predicate Sent(log: seq<Record>, c: Client, d: Client, sent: seq<ClientMsg>) {
    && ClientOk(log, d) && d.first == c.first && d.committed == c.committed && c.next <= d.next
    && sent + d.queue == c.queue + Added(log, c, d)
    && (d.state.RecvHello? <==> c.state.RecvHello?) && (d.state.Failed? <==> c.state.Failed?)
    && (d.state.Finished? <==> c.state.Finished?) && (Sending(c) ==> Sending(d))
    && (Leaving(c) ==> Leaving(d) && d.next == c.next) && (c.state.Finished? ==> d.next == c.next)
  }

  lemma {:induction false} SendAdds(log: seq<Record>, c: Client, count: nat, room: nat)
    requires Timed(log) && ClientOk(log, c) && 0 < count <= |c.queue|
    ensures Sent(log, c, Send(log, c, count, room), c.queue[..count])
  {
    hide Elapsed, FormatNext, Datas;
    assert c.queue[..count] + c.queue[count..] == c.queue;
    if count == |c.queue| && (c.state.SendAccept? || c.state.SendRestart? || c.state.SendIo?) {
      SendFormats(log, c, count, room);
    } else {
      NoDatas(log, c.next);
      assert Added(log, c, Send(log, c, count, room)) == [];
    }
  }

  lemma {:induction false} SendFormats(log: seq<Record>, c: Client, count: nat, room: nat)
    requires Timed(log) && ClientOk(log, c) && 0 < count == |c.queue|
    requires c.state.SendAccept? || c.state.SendRestart? || c.state.SendIo?
    ensures Sent(log, c, Send(log, c, count, room), c.queue[..count])
  {
    hide Elapsed, FormatNext, Datas, Timed;
    var b := c.(queue := c.queue[count..]);
    var d := Send(log, c, count, room);
    assert b.queue == [] && c.queue[..count] == c.queue;
    FormatNextAdds(log, b.(state := SendIo), room);
    LastOfDatas(log, c.next, d.next);
    assert d.queue == Added(log, c, d);
  }

  lemma {:induction false} NoDatas(log: seq<Record>, i: nat)
    requires i <= |log|
    ensures Datas(log, i, i) == []
  {
  }

  lemma {:induction false} LastOfDatas(log: seq<Record>, i: nat, j: nat)
    requires i <= j <= |log|
    ensures i < j ==> Datas(log, i, j) != [] && Datas(log, i, j)[j - i - 1].Data?
    ensures |Datas(log, i, j)| == j - i
  {
  }

  lemma {:induction false} BodyGrows(log: seq<Record>, c: Client, d: Client, from: nat)
    requires from <= c.next <= d.next <= |log|
    requires Leaving(c) ==> Leaving(d) && d.next == c.next
    ensures Body(log, d, from, Leaving(d)) == Body(log, c, from, Leaving(c)) + Added(log, c, d)
  {
    DatasExtend(log, from, c.next, d.next);
    hide Datas;
    NoDatas(log, c.next);
  }

  lemma {:induction false} AddedNothing(log: seq<Record>, c: Client, d: Client)
    requires c.next == d.next <= |log| && (Leaving(d) ==> Leaving(c))
    ensures Added(log, c, d) == []
  {
  }

  /** What is under way ends as it says. */
  lemma {:induction false} EndsOfBody(log: seq<Record>, c: Client, from: nat, end: bool)
    requires from <= c.next <= |log| && (!c.state.Finished? ==> end == Leaving(c))
    ensures Ends(c, Body(log, c, from, end)) == end
  {
    LastOfDatas(log, from, c.next);
  }

  /** Sending moves messages along and adds what was formatted at the end. */
  lemma {:induction false} FlowGrows(log: seq<Record>, k: Link, d: Client, sent: seq<ClientMsg>)
    requires ClientOk(log, k.client) && Sent(log, k.client, d, sent)
    ensures (k.toServer + sent) + d.queue == (k.toServer + k.client.queue) + Added(log, k.client, d)
  {
    hide Datas, Elapsed, Leaving;
    assert (k.toServer + sent) + d.queue == k.toServer + (sent + d.queue);
  }

  lemma {:induction false} SendInitial(log: seq<Record>, s: System, k: Link, d: Client, sent: seq<ClientMsg>)
    requires ClientOk(log, k.client) && InitialOk(log, s, k) && Sent(log, k.client, d, sent)
    ensures InitialOk(log, s, k.(client := d, toServer := k.toServer + sent))
  {
    var c := k.client;
    FlowGrows(log, k, d, sent);
    BodyGrows(log, c, d, c.first);
    if c.state.RecvHello? {
      AddedNothing(log, c, d);
    }
    hide Added, Body, Elapsed, ClientOk;
    if !c.state.RecvHello? {
      var grown := Added(log, c, d);
      var rest := [Opening(log, c)] + Body(log, c, c.first, Leaving(c));
      assert [Opening(log, d)] + Body(log, d, d.first, Leaving(d)) == rest + grown;
      HelloFirst(rest, grown);
    }
  }

  lemma {:induction false} HelloFirst(rest: seq<ClientMsg>, grown: seq<ClientMsg>)
    ensures ([Hello] + rest) + grown == [Hello] + (rest + grown)
  {
  }

  lemma {:induction false} SendRunning(log: seq<Record>, s: System, k: Link, d: Client, sent: seq<ClientMsg>)
    requires ClientOk(log, k.client) && RunningOk(log, s, k) && Sent(log, k.client, d, sent)
    ensures RunningOk(log, s, k.(client := d, toServer := k.toServer + sent))
  {
    hide Added, Elapsed, Stands, Downstream, LaterDelays, FlowOk;
    FlowGrows(log, k, d, sent);
    SendFlow(log, k.client, d, StoredData(k.server), k.toServer + k.client.queue, sent);
  }

  lemma {:induction false} SendFlow(log: seq<Record>, c: Client, d: Client, from: nat, flow: seq<ClientMsg>, sent: seq<ClientMsg>)
    requires ClientOk(log, c) && Sent(log, c, d, sent) && FlowOk(log, c, from, flow)
    ensures FlowOk(log, d, from, flow + Added(log, c, d))
  {
    hide Added, Elapsed, Body;
    if c.state.Finished? {
      AddedNothing(log, c, d);
      SameBody(log, c, d, from);
      assert flow + [] == flow;
    } else {
      BodyGrows(log, c, d, from);
    }
  }

  lemma {:induction false} ClientSendsOk(log: seq<Record>, s: System, k: Link, count: nat, room: nat)
    requires Timed(log) && LinkOk(log, s, k) && 0 < count <= |k.client.queue|
    ensures LinkOk(log, s, k.(client := Send(log, k.client, count, room),
                              toServer := k.toServer + k.client.queue[..count]))
  {
    var c, d, sent := k.client, Send(log, k.client, count, room), k.client.queue[..count];
    SendAdds(log, c, count, room);
    hide Send, InitialOk, RunningOk, Added;
    match k.server.state {
      case Initial => SendInitial(log, s, k, d, sent);
      case Running => SendRunning(log, s, k, d, sent);
      case _ =>
    }
  }

  // ---- the server ----

  lemma {:induction false} FlowTail(a: seq<ClientMsg>, b: seq<ClientMsg>)
    requires a != []
    ensures (a + b)[0] == a[0] && (a + b)[1..] == a[1..] + b
  {
  }

  /** The first message of what is under way, and what remains without it. */
  lemma {:induction false} BodyHead(log: seq<Record>, c: Client, m: nat, end: bool)
    requires m <= c.next <= |log|
    ensures m < c.next ==> Body(log, c, m, end) == [Data(log[m])] + Body(log, c, m + 1, end)
    ensures m == c.next ==> Body(log, c, m, end) == if end then [Exit] else []
  {
    if m < c.next {
      DatasExtend(log, m, m + 1, c.next);
      OneData(log, m);
    } else {
      NoDatas(log, m);
    }
  }

  /** The first message under way, and what follows it. */
  lemma {:induction false} FlowHead(log: seq<Record>, c: Client, m: nat, flow: seq<ClientMsg>)
    requires FlowOk(log, c, m, flow)
    ensures m < c.next ==> flow != [] && flow[0] == Data(log[m]) && FlowOk(log, c, m + 1, flow[1..])
    ensures m == c.next ==> flow == [] || (flow == [Exit] && c.next == |log|)
  {
    hide Body;
    var end := Ends(c, flow);
    BodyHead(log, c, m, end);
    if m < c.next {
      EndsOfBody(log, c, m + 1, end);
      assert flow[1..] == Body(log, c, m + 1, end);
    }
  }

  /** A new log, from its first message on. */
  lemma {:induction false} AcceptOk(log: seq<Record>)
    ensures Agrees(log, StoreAccept().disk) && Stands(log, StoreAccept(), 0, 0)
  {
    var s := StoreAccept();
    forall fd: StreamId ensures StreamAgrees(log, 0, s.disk.streams, fd) && HandleAt(log, 0, s, fd) {
    }
  }

  function Received(k: Link, h: Heard): Link
    requires k.toServer != []
  {
    k.(server := h.server, toServer := k.toServer[1..], toClient := k.toClient + h.reply)
  }

  function After(s: System, h: Heard): System {
    s.(disk := h.disk, created := h.created)
  }

  lemma {:induction false} ReceiveHello(log: seq<Record>, s: System, k: Link)
    requires ClientOk(log, k.client) && InitialOk(log, s, k) && k.toServer != [] && k.toServer[0].Hello?
    requires k.server.state.Initial?
    ensures var h := ServerHears(s.disk, s.created, s.compressed, k.server, Hello);
            After(s, h) == s && h.server == k.server && InitialOk(log, s, Received(k, h))
  {
    hide Body, Elapsed;
    FlowTail(k.toServer, k.client.queue);
    var c := k.client;
    var rest := if c.state.RecvHello? then [] else [Opening(log, c)] + Body(log, c, c.first, Leaving(c));
    assert ([Hello] + rest)[1..] == rest;
  }

  lemma {:induction false} ReceiveOpening(log: seq<Record>, s: System, k: Link)
    requires Timed(log) && ClientOk(log, k.client) && InitialOk(log, s, k) && k.toServer != [] && !k.toServer[0].Hello?
    ensures !k.client.state.RecvHello? && k.toServer[0] == Opening(log, k.client)
    ensures FlowOk(log, k.client, k.client.first, k.toServer[1..] + k.client.queue)
    ensures Sending(k.client)
  {
    hide Body, Elapsed;
    FlowTail(k.toServer, k.client.queue);
    var c := k.client;
    if !c.state.RecvHello? {
      var body := Body(log, c, c.first, Leaving(c));
      assert ([Opening(log, c)] + body)[1..] == body;
      BodyHead(log, c, c.first, Leaving(c));
    }
  }

  lemma {:induction false} ReceiveAccept(log: seq<Record>, s: System, k: Link)
    requires Timed(log) && Inv(log, s) && LinkOk(log, s, k) && k.server.state.Initial?
    requires k.toServer != [] && k.toServer[0].Accept?
    ensures var h := ServerHears(s.disk, s.created, s.compressed, k.server, Accept);
            Agrees(log, h.disk) && h.created && |h.disk.timing| == |s.disk.timing| && LinkOk(log, After(s, h), Received(k, h))
  {
    hide Body, Elapsed, Stands, Agrees, Timed, LaterDelays, FlowOk;
    AcceptOk(log);
    ReceiveOpening(log, s, k);
    var c := k.client;
    FirstDownstream(log, c);
    assert [] + [LogId] == [LogId];
  }

  lemma {:induction false} FirstDownstream(log: seq<Record>, c: Client)
    requires Timed(log) && ClientOk(log, c) && !IsSet(c.committed)
    ensures Downstream(log, c.first, c.committed, [], c.first) && Downstream(log, c.first, c.committed, [LogId], c.first)
  {
    ElapsedMonotone(Lines(log), 0, c.first);
    assert [LogId][1..] == [];
  }

  /** A restart that is found puts the server where the client stands. */
  lemma {:induction false} RestartHeard(log: seq<Record>, s: System, k: Link)
    requires Timed(log) && Agrees(log, s.disk) && ClientOk(log, k.client) && InitialOk(log, s, k) && s.created
    requires k.server.state.Initial? && k.toServer != [] && k.toServer[0].Restart?
    requires k.client.first <= |s.disk.timing| && !s.disk.complete
    ensures var c := k.client; var r := StoreRestart(s.disk, k.toServer[0].point, s.compressed);
            && r.Some? && Agrees(log, r.value.disk) && Stands(log, r.value, c.first, c.first) && r.value.at.line == c.first
            && !r.value.disk.complete && (if s.compressed then |r.value.disk.timing| == c.first else r.value.disk == s.disk)
            && ServerHears(s.disk, s.created, s.compressed, k.server, k.toServer[0])
               == Heard(r.value.disk, s.created, k.server.(state := Running, at := r.value.at), [])
  {
    var c, p := k.client, k.toServer[0].point;
    ReceiveOpening(log, s, k);
    hide Body, Elapsed, Stands, Agrees, StoreRestart, Downstream;
    RisingIsSharp(log, c.first);
    RestartAgrees(log, s.disk, c.first, s.compressed);
    StandsLine(log, StoreRestart(s.disk, p, s.compressed).value, c.first, c.first);
  }

  lemma {:induction false} RestartFound(log: seq<Record>, s: System, k: Link)
    requires Timed(log) && s.created && Agrees(log, s.disk) && ClientOk(log, k.client) && InitialOk(log, s, k)
    requires k.server.state.Initial? && k.toServer != [] && k.toServer[0].Restart?
    requires k.client.first <= |s.disk.timing| && !s.disk.complete
    ensures var h := ServerHears(s.disk, s.created, s.compressed, k.server, k.toServer[0]);
            && Agrees(log, h.disk) && h.created && (!s.compressed ==> h.disk == s.disk)
            && h.server.state.Running? && RunningOk(log, After(s, h), Received(k, h))
  {
    hide Body, Elapsed, Stands, Agrees, StoreRestart, Downstream, ServerHears, Timed, LaterDelays, FlowOk;
    RestartHeard(log, s, k);
    ReceiveOpening(log, s, k);
    FirstDownstream(log, k.client);
    assert k.toClient + [] == k.toClient;
  }

  /** The server's search ends where the client's did, or finds nothing. */
  lemma {:induction false} ReceiveRestart(log: seq<Record>, s: System, k: Link)
    requires Timed(log) && Inv(log, s) && LinkOk(log, s, k) && k.server.state.Initial?
    requires k.toServer != [] && k.toServer[0].Restart?
    ensures var h := ServerHears(s.disk, s.created, s.compressed, k.server, k.toServer[0]);
            && Agrees(log, h.disk) && h.created && (!s.compressed ==> h.disk == s.disk)
            && LinkOk(log, After(s, h), Received(k, h))
  {
    hide Body, Elapsed, Agrees, StoreRestart, RunningOk, Timed;
    ReceiveOpening(log, s, k);
    if k.client.first <= |s.disk.timing| && !s.disk.complete {
      RestartFound(log, s, k);
    } else {
      RestartMissing(log, s.disk, k.client.first, s.compressed);
      assert [] + [Error] == [Error];
    }
  }

  lemma {:induction false} RestartMissing(log: seq<Record>, disk: Disk, k: nat, compressed: bool)
    requires Timed(log) && Agrees(log, disk) && k <= |log| && IsSet(Elapsed(Lines(log), k))
    requires k > |disk.timing| || disk.complete
    ensures StoreRestart(disk, Elapsed(Lines(log), k), compressed).None?
  {
    var t, target := Lines(log), Elapsed(Lines(log), k);
    ElapsedNormal(t, k);
    ResumeIndexIsFirst(disk.timing, disk.streams.Keys, target);
    var r := ResumeIndex(disk.timing, disk.streams.Keys, target, 0);
    if r.Some? {
      ElapsedOfPrefix(disk.timing, t, r.value);
      ElapsedInjective(t, r.value, k);
    }
  }

  lemma {:induction false} ReceiveData(log: seq<Record>, s: System, k: Link)
    requires Timed(log) && Inv(log, s) && LinkOk(log, s, k) && k.server.state.Running?
    requires k.toServer != [] && k.server.writing.None? && StoredData(k.server) < k.client.next
    ensures k.toServer[0].Data?
    ensures var h := ServerHears(s.disk, s.created, s.compressed, k.server, k.toServer[0]);
            && Agrees(log, h.disk) && h.created && h.disk.timing == s.disk.timing
            && LinkOk(log, After(s, h), Received(k, h))
  {
    hide Elapsed, Stands, Agrees, Downstream, StoreRecordData, FlowOk, LaterDelays, Timed;
    var c, m := k.client, k.server.at.line;
    FlowTail(k.toServer, c.queue);
    FlowHead(log, c, m, k.toServer + c.queue);
    StoreDataAgrees(log, Store(s.disk, k.server.at), m);
    assert k.toClient + [] == k.toClient;
    StandsLine(log, StoreRecordData(Store(s.disk, k.server.at), log[m]), m, m + 1);
    StoreDataKeepsComplete(Store(s.disk, k.server.at), log[m]);
  }

  lemma {:induction false} StandsLine(log: seq<Record>, s: Store, m: nat, m1: nat)
    requires Stands(log, s, m, m1)
    ensures s.at.line == m <= |s.disk.timing| && s.at.elapsed == Elapsed(Lines(log), m)
  {
  }

  lemma {:induction false} StoreDataKeepsComplete(s: Store, r: Record)
    requires Openable(s)
    ensures StoreRecordData(s, r).disk.complete == s.disk.complete
  {
  }

  lemma {:induction false} ReceiveExit(log: seq<Record>, s: System, k: Link)
    requires Timed(log) && Inv(log, s) && LinkOk(log, s, k) && k.server.state.Running? && s.created
    requires k.toServer != [] && k.server.writing.None? && StoredData(k.server) == k.client.next
    ensures k.toServer[0].Exit?
    ensures var h := ServerHears(s.disk, s.created, s.compressed, k.server, k.toServer[0]);
            && Agrees(log, h.disk) && h.created && h.disk.timing == s.disk.timing
            && LinkOk(log, After(s, h), Received(k, h))
  {
    hide Elapsed, StreamAgrees, HandleAt, Downstream, FlowOk, LaterDelays, Timed;
    var c, m := k.client, k.server.at.line;
    FlowTail(k.toServer, c.queue);
    FlowHead(log, c, m, k.toServer + c.queue);
    assert k.toClient + [] == k.toClient;
  }

  lemma {:induction false} ServerReceivesOk(log: seq<Record>, s: System)
    requires Timed(log) && Inv(log, s) && s.link.Some?
    ensures Inv(log, Apply(log, s, ServerReceives))
  {
    hide Agrees, ServerHears, InitialOk, RunningOk, ClientOk, Timed, Downstream;
    var k := s.link.value;
    var v := k.server;
    if k.toServer != [] && v.writing.None? && !v.state.Refused? {
      var h := ServerHears(s.disk, s.created, s.compressed, v, k.toServer[0]);
      if v.state.Initial? {
        if k.toServer[0].Hello? {
          ReceiveHello(log, s, k);
        } else {
          ReceiveOpening(log, s, k);
          if k.toServer[0].Accept? {
            ReceiveAccept(log, s, k);
          } else {
            ReceiveRestart(log, s, k);
          }
        }
      } else if v.state.Running? {
        RunningFacts(log, s, k);
        if StoredData(v) < k.client.next {
          ReceiveData(log, s, k);
        } else {
          ReceiveExit(log, s, k);
        }
      }
      LinkIgnoresKnown(log, s, h, Received(k, h));
    }
  }

  lemma {:induction false} RunningFacts(log: seq<Record>, s: System, k: Link)
    requires LinkOk(log, s, k) && k.server.state.Running?
    ensures s.created && StoredData(k.server) <= k.client.next <= |log|
  {
  }

  /** The connection's invariant reads the files, not the client's memory. */
  lemma {:induction false} LinkIgnoresKnown(log: seq<Record>, s: System, h: Heard, k: Link)
    ensures LinkOk(log, After(s, h), k) <==> LinkOk(log, After(s, h).(link := Some(k)), k)
  {
  }

  /** The files and handles once the line is written. */
  lemma {:induction false} LineStored(log: seq<Record>, s: System, k: Link)
    requires Timed(log) && Inv(log, s) && s.link == Some(k) && k.server.writing.Some?
    ensures var v, m, n := k.server, k.server.at.line, |s.disk.timing|;
            && v.state.Running? && RunningOk(log, s, k) && m < |log| && v.writing.value == log[m]
            && Openable(Store(s.disk, v.at))
            && var st := StoreLine(Store(s.disk, v.at), LineOf(log[m]));
               && st.at.line == m + 1 && st.disk.complete == s.disk.complete
               && Agrees(log, st.disk) && Stands(log, st, m + 1, m + 1) && n <= |st.disk.timing| <= |log|
               && (m == n ==> |st.disk.timing| == m + 1)
    ensures Downstream(log, k.client.first, k.client.committed, k.toClient, k.server.at.line + 1)
  {
    hide Agrees, Stands, Downstream, Elapsed, Body, Reached;
    var m, st := k.server.at.line, Store(s.disk, k.server.at);
    StoringRuns(log, s, k);
    StoreLineAgrees(log, st, m);
    AgreesSize(log, StoreLine(st, LineOf(log[m])).disk);
    DownstreamGrows(log, k.client.first, k.client.committed, k.toClient, m, m + 1);
  }

  lemma {:induction false} KnownGrows(log: seq<Record>, s: System, s': System)
    requires KnownOk(log, s) && s'.known == s.known && s'.compressed == s.compressed && (s.created ==> s'.created)
    requires |s.disk.timing| <= |s'.disk.timing|
    ensures KnownOk(log, s')
  {
    hide Reached;
    forall p | p in s.known ensures s'.created && Reached(log, p, 0, if s.compressed then |log| else |s'.disk.timing|) {
      ReachedGrows(log, p, 0, if s.compressed then |log| else |s.disk.timing|, 0, if s.compressed then |log| else |s'.disk.timing|);
    }
  }

  lemma {:induction false} ServerStoresOk(log: seq<Record>, s: System)
    requires Timed(log) && Inv(log, s) && s.link.Some?
    ensures Inv(log, Apply(log, s, ServerStores))
  {
    hide Agrees, Stands, Downstream, FlowOk, Elapsed, StoreLine, Reached, Openable, ClientOk, KnownOk, LineOf, Timed, LaterDelays;
    var k := s.link.value;
    var v := k.server;
    if v.writing.Some? && Openable(Store(s.disk, v.at)) {
      var s' := Apply(log, s, ServerStores);
      LineStored(log, s, k);
      var st := StoreLine(Store(s.disk, v.at), LineOf(log[v.at.line]));
      assert s' == s.(disk := st.disk, link := Some(k.(server := v.(at := st.at, writing := None, commitDue := true))));
      KnownGrows(log, s, s');
      assert RunningOk(log, s', s'.link.value);
    }
  }

  lemma {:induction false} AgreesSize(log: seq<Record>, disk: Disk)
    requires Agrees(log, disk)
    ensures |disk.timing| <= |log|
  {
  }

  lemma {:induction false} StoringRuns(log: seq<Record>, s: System, k: Link)
    requires Inv(log, s) && s.link == Some(k) && k.server.writing.Some?
    ensures k.server.state.Running? && RunningOk(log, s, k) && Agrees(log, s.disk)
    ensures k.server.at.line < |log|
  {
  }

  lemma {:induction false} ServerCommitsOk(log: seq<Record>, s: System)
    requires Timed(log) && Inv(log, s) && s.link.Some?
    ensures Inv(log, Apply(log, s, ServerCommits))
  {
    hide Agrees, Stands, Downstream, FlowOk, Elapsed, Reached, ClientOk, Sending, Timed, LaterDelays;
    var k := s.link.value;
    var v := k.server;
    if v.commitDue && v.writing.None? {
      CommitIsElapsed(log, s, k);
      DownstreamCommit(log, k.client.first, k.client.committed, k.toClient, v.at.line);
      match v.state {
        case Running =>
        case Exited =>
      }
    }
  }

  /** The time a server reports is that of the lines before its position. */
  lemma {:induction false} CommitIsElapsed(log: seq<Record>, s: System, k: Link)
    requires LinkOk(log, s, k) && (k.server.state.Running? || k.server.state.Exited? || k.server.state.Done?)
    ensures k.server.at.line <= |log| && k.server.at.elapsed == Elapsed(Lines(log), k.server.at.line)
    ensures k.server.commitDue ==> k.client.first <= k.server.at.line && (0 < k.server.at.line || log == [])
    ensures Downstream(log, k.client.first, k.client.committed, k.toClient, k.server.at.line)
  {
  }

  // ---- the client hears ----

  /** With a delay on every record after the first, a commit point for
      everything formatted means that everything is stored. */
  lemma {:induction false} FinishedMeansStored(log: seq<Record>, s: System, k: Link, p: Timespec)
    requires Timed(log) && LaterDelays(Lines(log))
    requires ClientOk(log, k.client) && !k.client.state.Finished? && k.server.state.Running? && RunningOk(log, s, k)
    requires Agrees(log, s.disk) && Reached(log, p, k.client.first, k.server.at.line) && Cmp(k.client.elapsed, p, Eq)
    ensures k.client.next == |s.disk.timing| == |log|
  {
    var c, t, line := k.client, Lines(log), k.server.at.line;
    var j: nat :| c.first <= j <= line && j <= |log| && (0 < j || log == []) && Elapsed(t, j) == p;
    assert p == c.elapsed;
    if j < c.next {
      LaterStrict(log, j, c.next);
    }
    hide Stands, Downstream, Elapsed, StreamAgrees, Body, LaterDelays, Rising;
    assert line == c.next == StoredData(k.server);
    FlowHead(log, c, c.next, k.toServer + c.queue);
    assert Stands(log, Store(s.disk, k.server.at), line, line);
    StandsLine(log, Store(s.disk, k.server.at), line, line);
  }

  lemma {:induction false} LaterStrict(log: seq<Record>, i: nat, j: nat)
    requires NormalLog(Lines(log)) && LaterDelays(Lines(log)) && 0 < i < j <= |log|
    ensures Elapsed(Lines(log), i) != Elapsed(Lines(log), j)
  {
    ElapsedSameIff(Lines(log), i, j);
    assert IsSet(Lines(log)[i].delay);
  }

  lemma {:induction false} DownstreamHead(log: seq<Record>, from: nat, last: Timespec, ms: seq<ServerMsg>, n: nat)
    requires ms != [] && Downstream(log, from, last, ms, n)
    ensures ms[0].LogId? || ms[0].Commit?
    ensures ms[0].LogId? ==> Downstream(log, from, last, ms[1..], n)
    ensures ms[0].Commit? ==> Reached(log, ms[0].point, from, n) && Nanos(last) <= Nanos(ms[0].point)
                              && Downstream(log, from, ms[0].point, ms[1..], n)
  {
  }

  /** A point reached in this session is not before its start. */
  lemma {:induction false} ReachedLater(log: seq<Record>, p: Timespec, from: nat, n: nat)
    requires Timed(log) && Reached(log, p, from, n)
    ensures from <= |log| && Nanos(Elapsed(Lines(log), from)) <= Nanos(p)
  {
    hide Rising;
    var j: nat :| from <= j <= n && j <= |log| && Elapsed(Lines(log), j) == p;
    ElapsedMonotone(Lines(log), from, j);
  }

  lemma {:induction false} HearsInitial(log: seq<Record>, s: System, k: Link)
    requires ClientOk(log, k.client) && InitialOk(log, s, k) && k.toClient != []
    ensures k.toClient[0].ServerHello?
    ensures var c' := ClientHears(k.client, k.toClient[0]);
            ClientOk(log, c') && InitialOk(log, s, k.(client := c', toClient := k.toClient[1..]))
  {
    hide Body;
    var c, c' := k.client, ClientHears(k.client, ServerHello);
    BodyHead(log, c', c'.first, false);
    assert k.toClient[1..] == [];
    assert k.toServer + (c.queue + [Opening(log, c')]) == (k.toServer + c.queue) + [Opening(log, c')];
    hide Elapsed;
    assert [Opening(log, c')] + Body(log, c', c'.first, false) == [Opening(log, c')];
  }

  /** A commit point leaves the client as it was, or finished. */
  lemma {:induction false} HearsCommit(log: seq<Record>, s: System, k: Link, p: Timespec)
    requires Timed(log) && ClientOk(log, k.client) && k.server.state.Running? && RunningOk(log, s, k)
    requires Agrees(log, s.disk) && !k.client.state.Finished? && Reached(log, p, k.client.first, k.server.at.line)
    ensures var c' := ClientHears(k.client, Commit(p));
            && ClientOk(log, c') && CommittedOk(log, c') && FinishedOk(log, c', |s.disk.timing|)
            && FlowOk(log, c', StoredData(k.server), k.toServer + c'.queue)
            && Sending(c') && c'.first == k.client.first && c'.committed == p && c'.next == k.client.next
  {
    hide Downstream, FlowOk, Elapsed, Cmp, Agrees, Reached, LaterDelays, Timed, Stands;
    var c := k.client;
    ReachedLater(log, p, c.first, k.server.at.line);
    if Cmp(c.elapsed, p, Eq) && LaterDelays(Lines(log)) {
      FinishedMeansStored(log, s, k, p);
    }
    SameFlow(log, c, ClientHears(c, Commit(p)), StoredData(k.server), k.toServer + c.queue);
  }

  lemma {:induction false} HearsRunning(log: seq<Record>, s: System, k: Link)
    requires Timed(log) && ClientOk(log, k.client) && k.server.state.Running? && RunningOk(log, s, k)
    requires Agrees(log, s.disk) && k.toClient != [] && !k.client.state.Finished?
    ensures var c' := ClientHears(k.client, k.toClient[0]);
            ClientOk(log, c') && RunningOk(log, s, k.(client := c', toClient := k.toClient[1..]))
    ensures k.toClient[0].Commit? ==>
              var p := k.toClient[0].point; s.created && Reached(log, p, 0, |s.disk.timing|) && Reached(log, p, 0, |log|)
  {
    hide Downstream, FlowOk, Elapsed, Agrees, Reached, LaterDelays, Timed, CommittedOk, FinishedOk, ClientHears, Stands;
    var c, m, line := k.client, k.toClient[0], k.server.at.line;
    StandsLine(log, Store(s.disk, k.server.at), line, StoredData(k.server));
    DownstreamHead(log, c.first, c.committed, k.toClient, line);
    HearsLogId(c);
    if m.Commit? {
      HearsCommit(log, s, k, m.point);
      ReachedGrows(log, m.point, c.first, line, 0, |s.disk.timing|);
      ReachedGrows(log, m.point, c.first, line, 0, |log|);
    }
  }

  lemma {:induction false} HearsLogId(c: Client)
    ensures ClientHears(c, LogId) == c
  {
  }

  lemma {:induction false} SameFlow(log: seq<Record>, c: Client, d: Client, from: nat, flow: seq<ClientMsg>)
    requires FlowOk(log, c, from, flow) && d.next == c.next && !c.state.Finished? && (d.state.Finished? || d.state == c.state)
    ensures FlowOk(log, d, from, flow)
  {
    hide Body;
    SameBody(log, c, d, from);
    EndsOfBody(log, d, from, Ends(c, flow));
  }

  lemma {:induction false} SameBody(log: seq<Record>, c: Client, d: Client, from: nat)
    requires from <= c.next == d.next <= |log|
    ensures forall end :: Body(log, c, from, end) == Body(log, d, from, end)
  {
  }

  lemma {:induction false} HearsExited(log: seq<Record>, s: System, k: Link)
    requires Timed(log) && ClientOk(log, k.client) && ExitedOk(log, s, k) && k.toClient != []
    ensures var c' := ClientHears(k.client, k.toClient[0]);
            ClientOk(log, c') && ExitedOk(log, s, k.(client := c', toClient := k.toClient[1..]))
    ensures k.toClient[0].Commit? ==>
              var p := k.toClient[0].point; s.created && Reached(log, p, 0, |s.disk.timing|) && Reached(log, p, 0, |log|)
  {
    hide Downstream, Elapsed, Cmp, Reached, Timed;
    var c, m := k.client, k.toClient[0];
    DownstreamHead(log, c.first, c.committed, k.toClient, |log|);
    if m.Commit? {
      ReachedGrows(log, m.point, c.first, |log|, 0, |log|);
      ReachedLater(log, m.point, c.first, |log|);
    }
  }

  lemma {:induction false} ClientReceivesOk(log: seq<Record>, s: System)
    requires Timed(log) && Inv(log, s) && s.link.Some?
    ensures Inv(log, Apply(log, s, ClientReceives))
  {
    hide InitialOk, RunningOk, ExitedOk, Agrees, Reached, Timed;
    var k := s.link.value;
    if k.toClient != [] && !k.client.state.Finished? && !k.client.state.Failed? {
      match k.server.state {
        case Initial => HearsInitial(log, s, k);
        case Running => RunningFacts(log, s, k); HearsRunning(log, s, k);
        case Exited => HearsExited(log, s, k);
        case Done => HearsExited(log, s, k);
        case Refused =>
      }
      var s' := Apply(log, s, ClientReceives);
      LinkIgnoresMemory(log, s, s', s'.link.value);
    }
  }

  lemma {:induction false} LinkIgnoresMemory(log: seq<Record>, s: System, s': System, k: Link)
    requires s'.disk == s.disk && s'.created == s.created && s'.compressed == s.compressed
    ensures LinkOk(log, s, k) <==> LinkOk(log, s', k)
  {
  }

  // ---- every run ----

  /** The client's own search finds the point it restarts from. */
  lemma {:induction false} ClientFinds(log: seq<Record>, j: nat)
    requires NormalLog(Lines(log)) && Sharp(log, j)
    ensures ResumeIndex(Lines(log), ALL_STREAMS, Elapsed(Lines(log), j), 0) == Some(j)
  {
    hide ResumeIndex, FirstAt, Elapsed;
    var t, target := Lines(log), Elapsed(Lines(log), j);
    SharpIsFirst(log, j);
    ElapsedNormal(t, j);
    ResumeIndexIsFirst(t, ALL_STREAMS, target);
    FirstIsOne(t, ALL_STREAMS, target, ResumeIndex(t, ALL_STREAMS, target, 0).value, j);
  }

  lemma {:induction false} SharpIsFirst(log: seq<Record>, j: nat)
    requires Sharp(log, j)
    ensures FirstAt(Lines(log), ALL_STREAMS, Elapsed(Lines(log), j), j)
  {
    ElapsedAtStart(log);
    hide Elapsed, Nanos;
  }

  lemma {:induction false} ConnectsOk(log: seq<Record>, s: System, step: Step)
    requires Timed(log) && Inv(log, s) && s.link.None?
    ensures Inv(log, Apply(log, s, step))
  {
    hide Elapsed, ResumeIndex, Agrees, Rising;
    match step {
      case ConnectFresh =>
        ElapsedAtStart(log);
      case ConnectRestart(p) =>
        if p in s.known && IsSet(p) {
          var n := if s.compressed then |log| else |s.disk.timing|;
          assert Reached(log, p, 0, n);
          var j: nat :| j <= n && j <= |log| && Elapsed(Lines(log), j) == p;
          ElapsedAtStart(log);
          RisingIsSharp(log, j);
          ClientFinds(log, j);
        }
      case _ =>
    }
  }

  lemma {:induction false} ElapsedAtStart(log: seq<Record>)
    ensures Elapsed(Lines(log), 0) == ZERO
  {
  }

  lemma {:induction false} CrashOk(log: seq<Record>, s: System, written: nat)
    requires Timed(log) && Inv(log, s) && s.link.Some?
    ensures Inv(log, Apply(log, s, CrashWriting(written)))
  {
    hide Agrees, Stands, Downstream, Elapsed, Reached, StoreData;
    var k := s.link.value;
    var v, c := k.server, k.client;
    var s' := Apply(log, s, CrashWriting(written));
    if s' != s {
      var m := v.at.line;
      FlowTail(k.toServer, c.queue);
      FlowHead(log, c, m, k.toServer + c.queue);
      hide FlowOk;
      TornWriteAgrees(log, Store(s.disk, v.at), m, written);
    }
  }

  lemma {:induction false} StepOk(log: seq<Record>, s: System, step: Step)
    requires Timed(log) && Inv(log, s)
    ensures Inv(log, Apply(log, s, step))
  {
    if s.link.None? {
      ConnectsOk(log, s, step);
    } else {
      var k := s.link.value;
      match step {
        case ClientSends(count, room) =>
          if 0 < count <= |k.client.queue| {
            ClientSendsOk(log, s, k, count, room);
            var s' := Apply(log, s, step);
            LinkIgnoresMemory(log, s, s', s'.link.value);
          }
        case ServerReceives => ServerReceivesOk(log, s);
        case ServerStores => ServerStoresOk(log, s);
        case ServerCommits => ServerCommitsOk(log, s);
        case ClientReceives => ClientReceivesOk(log, s);
        case CrashWriting(written) => CrashOk(log, s, written);
        case _ =>
      }
    }
  }

  /** Every state that any sequence of steps can reach satisfies the invariant. */
  lemma {:induction false} EveryRun(log: seq<Record>, compressed: bool, run: seq<Step>)
    requires Timed(log)
    ensures Inv(log, Exec(log, compressed, run))
  {
    hide Agrees, LinkOk, Apply;
    if run != [] {
      EveryRun(log, compressed, run[..|run| - 1]);
      StepOk(log, Exec(log, compressed, run[..|run| - 1]), run[|run| - 1]);
    }
  }

  // ---- what follows ----

  /** Resuming is invisible: whatever breaks and wherever sessions restart, the
      files always hold a prefix of the log, and once the exit message is stored
      they are those of an uninterrupted session. */
  lemma {:induction false} ResumeEquivalence(log: seq<Record>, compressed: bool, run: seq<Step>)
    requires Timed(log)
    ensures var s := Exec(log, compressed, run);
            && (if s.created then Agrees(log, s.disk) else s.disk == NO_LOG)
            && (s.disk.complete ==> IsFinal(log, s.disk))
  {
    EveryRun(log, compressed, run);
    var s := Exec(log, compressed, run);
    hide StreamAgrees, LinkOk, Exec;
    if s.disk.complete {
      AllStoredIsFinal(log, s.disk);
    }
  }

  lemma {:induction false} LaterIsTimed(log: seq<Record>)
    requires NormalLog(Lines(log)) && LaterDelays(Lines(log))
    ensures Timed(log)
  {
    var t := Lines(log);
    assert Elapsed(t, 0) == ZERO;
    hide Elapsed;
  }

  /** With a delay on every record after the first, a client that finished has
      formatted every record, and the server has stored every one of them. */
  lemma {:induction false} CompletionIsSound(log: seq<Record>, compressed: bool, run: seq<Step>)
    requires NormalLog(Lines(log)) && LaterDelays(Lines(log))
    ensures var s := Exec(log, compressed, run);
            s.link.Some? && s.link.value.client.state.Finished? ==>
              s.link.value.client.next == |log| && IsFinal(log, s.disk)
  {
    hide StreamAgrees, Exec, Stands, Downstream, FlowOk, Elapsed, LaterDelays, NormalLog, Timed;
    LaterIsTimed(log);
    EveryRun(log, compressed, run);
    var s := Exec(log, compressed, run);
    if s.link.Some? && s.link.value.client.state.Finished? {
      AllStoredIsFinal(log, s.disk);
    }
  }

  /** A commit point is the time of the lines before the server's position in
      the timing file.  It is that of the whole file if and only if the server
      stands at its end, as it does if the session is the first one or the files
      were cut down when it began. */
  lemma {:induction false} CommitPointsAreSound(log: seq<Record>, compressed: bool, run: seq<Step>)
    requires Timed(log)
    ensures var s := Exec(log, compressed, run);
            s.link.Some? && s.link.value.server.commitDue && s.link.value.server.writing.None? ==>
              var v := s.link.value.server;
              && v.at.line <= |s.disk.timing|
              && v.at.elapsed == Elapsed(s.disk.timing, v.at.line)
              && (compressed || s.link.value.client.first == 0 ==> v.at.elapsed == Elapsed(s.disk.timing, |s.disk.timing|))
              && (v.at.elapsed == Elapsed(s.disk.timing, |s.disk.timing|) <==> v.at.line == |s.disk.timing|)
  {
    hide Exec, StreamAgrees, HandleAt, Downstream, FlowOk, Rising, Elapsed, LaterDelays;
    EveryRun(log, compressed, run);
    var s := Exec(log, compressed, run);
    ExecCompressed(log, compressed, run);
    if s.link.Some? && s.link.value.server.commitDue && s.link.value.server.writing.None? {
      var line, n := s.link.value.server.at.line, |s.disk.timing|;
      CommitIsElapsed(log, s, s.link.value);
      ElapsedOfPrefix(s.disk.timing, Lines(log), line);
      ElapsedOfPrefix(s.disk.timing, Lines(log), n);
      if line < n {
        LaterIsSet(log, s.link.value.client.first, n);
        ElapsedRises(Lines(log), line, n);
      }
    }
  }

  /** Time that has passed does not go back to zero. */
  lemma {:induction false} LaterIsSet(log: seq<Record>, i: nat, j: nat)
    requires Timed(log) && i <= j <= |log| && IsSet(Elapsed(Lines(log), i))
    ensures IsSet(Elapsed(Lines(log), j))
  {
    hide Rising;
    var t := Lines(log);
    ElapsedMonotone(t, i, j);
    ElapsedNormal(t, i);
    ElapsedNormal(t, j);
    NotSetIsZero(Elapsed(t, i));
    NotSetIsZero(Elapsed(t, j));
  }

  lemma {:induction false} ExecCompressed(log: seq<Record>, compressed: bool, run: seq<Step>)
    ensures Exec(log, compressed, run).compressed == compressed
  {
    if run != [] {
      ExecCompressed(log, compressed, run[..|run| - 1]);
    }
  }

  /** A restart at a commit point the client has received succeeds if and only
      if the log is not complete and still reaches that point.  It always does
      unless compressed files were cut down to an earlier one. */
  lemma {:induction false} CommitPointsAreFindable(log: seq<Record>, compressed: bool, run: seq<Step>, p: Timespec)
    requires Timed(log)
    ensures var s := Exec(log, compressed, run); var t := s.disk.timing;
            p in s.known && IsSet(p) ==>
              && (StoreRestart(s.disk, p, compressed).Some? <==> !s.disk.complete && Nanos(p) <= Nanos(Elapsed(t, |t|)))
              && (!compressed ==> Nanos(p) <= Nanos(Elapsed(t, |t|)))
  {
    EveryRun(log, compressed, run);
    ExecCompressed(log, compressed, run);
    var s := Exec(log, compressed, run);
    hide Exec, LinkOk, Agrees;
    if p in s.known && IsSet(p) {
      var j: nat :| j <= |log| && Elapsed(Lines(log), j) == p && (!compressed ==> j <= |s.disk.timing|);
      ElapsedAtStart(log);
      hide KnownOk, Reached;
      FoundIffCovered(log, s.disk, j, compressed);
    }
  }

  lemma {:induction false} FoundIffCovered(log: seq<Record>, disk: Disk, j: nat, compressed: bool)
    requires Timed(log) && Agrees(log, disk) && j <= |log| && IsSet(Elapsed(Lines(log), j))
    ensures var p, t := Elapsed(Lines(log), j), disk.timing;
            && (Nanos(p) <= Nanos(Elapsed(t, |t|)) <==> j <= |t|)
            && (StoreRestart(disk, p, compressed).Some? <==> !disk.complete && j <= |t|)
  {
    var u, n := Lines(log), |disk.timing|;
    AgreesSize(log, disk);
    ElapsedOfPrefix(disk.timing, u, n);
    if j <= n {
      ElapsedMonotone(u, j, n);
      if !disk.complete {
        RisingIsSharp(log, j);
        RestartAgrees(log, disk, j, compressed);
      }
    } else {
      ElapsedRises(u, n, j);
      if !disk.complete {
        RestartMissing(log, disk, j, compressed);
      }
    }
  }

  /** A server refuses a client only if the log is complete, or if its files
      were cut down and end before the point the client resumes from. */
  lemma {:induction false} RefusalsAreJustified(log: seq<Record>, compressed: bool, run: seq<Step>)
    requires Timed(log)
    ensures var s := Exec(log, compressed, run);
            s.link.Some? && s.link.value.server.state.Refused? ==>
              s.disk.complete || s.link.value.client.first > |s.disk.timing|
  {
    hide Exec, Agrees, ClientOk, InitialOk, RunningOk, ExitedOk, Timed;
    EveryRun(log, compressed, run);
  }
}
