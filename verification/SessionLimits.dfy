/** Where the guarantees of a session end: the exact conditions under which
    resuming works, and runs that show why they are needed. */
module SessionLimits {
  import opened Timespecs
  import opened IoLogs
  import opened LocalStore
  import opened StoredPrefix
  import opened Session
  import opened SessionSafety

  /** While skipping, the client passes over records without delay. */
  lemma {:induction false} SkippingEnds(log: seq<Record>, c: Client, room: nat)
    requires NormalLog(Lines(log)) && Normal(c.elapsed) && IsSet(c.restart) && c.restart == c.elapsed && c.queue == []
    ensures var q := FormatNext(log, c, room).queue;
            q != [] && (q[0].Exit? || (q[0].Data? && IsSet(q[0].record.delay)))
    decreases |log| - c.next
  {
    if c.next < |log| {
      var r := log[c.next];
      assert Lines(log)[c.next].delay == r.delay;
      var d := c.(elapsed := Plus(c.elapsed, r.delay), next := c.next + 1);
      CmpIsOrderOfInstants(c.restart, d.elapsed, Ge);
      NotSetIsZero(r.delay);
      if IsSet(r.delay) {
        FormatKeepsFront(log, d.(restart := ZERO, queue := d.queue + [Data(r)]), if room == 0 then 0 else room - 1);
      } else {
        NanosInjective(c.elapsed, d.elapsed);
        SkippingEnds(log, d, room);
      }
    }
  }

  lemma {:induction false} FormatKeepsFront(log: seq<Record>, c: Client, room: nat)
    requires c.queue != []
    ensures var q := FormatNext(log, c, room).queue; q != [] && q[0] == c.queue[0]
    decreases |log| - c.next
  {
    if c.next < |log| {
      var d := c.(elapsed := Plus(c.elapsed, log[c.next].delay), next := c.next + 1);
      if IsSet(c.restart) && Cmp(c.restart, d.elapsed, Ge) {
        FormatKeepsFront(log, d, room);
      } else if room > 0 {
        FormatKeepsFront(log, d.(restart := ZERO, queue := d.queue + [Data(log[c.next])]), room - 1);
      }
    }
  }

  /** Client and server resume at the same record if and only if the first
      record after the resume point has a delay.  The server waits for record
      `next`; the client, having sought to the same place, passes over records
      that the point already covers. */
  lemma {:induction false} ResumeAgreesIff(log: seq<Record>, c: Client, room: nat)
    requires NormalLog(Lines(log)) && Normal(c.elapsed) && c.next < |log|
    requires IsSet(c.restart) && c.restart == c.elapsed && c.queue == []
    ensures FormatNext(log, c, room).queue != []
    ensures FormatNext(log, c, room).queue[0] == Data(log[c.next]) <==> IsSet(log[c.next].delay)
  {
    SkippingEnds(log, c, room);
    var r := log[c.next];
    if IsSet(r.delay) {
      assert Lines(log)[c.next].delay == r.delay;
      var d := c.(elapsed := Plus(c.elapsed, r.delay), next := c.next + 1);
      NotSetIsZero(r.delay);
      CmpIsOrderOfInstants(c.restart, d.elapsed, Ge);
      FormatKeepsFront(log, d.(restart := ZERO, queue := d.queue + [Data(r)]), if room == 0 then 0 else room - 1);
    }
  }

  /** Cutting compressed files down to a resume point forgets every later one:
      restarting there is refused until the records have been sent again. */
  lemma {:induction false} CutDownForgets(log: seq<Record>, disk: Disk, k: nat, j: nat)
    requires Timed(log) && Agrees(log, disk) && !disk.complete && k < j <= |disk.timing| && IsSet(Elapsed(Lines(log), k))
    ensures StoreRestart(disk, Elapsed(Lines(log), j), true).Some?
    ensures var cut := StoreRestart(disk, Elapsed(Lines(log), k), true);
            cut.Some? && StoreRestart(cut.value.disk, Elapsed(Lines(log), j), true).None?
  {
    hide Agrees, StoreRestart, Rising, Elapsed, Sharp;
    AgreesSize(log, disk);
    LaterIsSet(log, k, j);
    RisingIsSharp(log, j);
    RisingIsSharp(log, k);
    RestartAgrees(log, disk, j, true);
    RestartAgrees(log, disk, k, true);
    RestartMissing(log, StoreRestart(disk, Elapsed(Lines(log), k), true).value.disk, j, true);
  }

  // ---- leaving ----

  /** What holds of a client and what it is about to hear, whatever the log:
      while it has something to do its queue is not empty, and the first thing
      it hears is the server's hello. */
  predicate Shaped(k: Link) {
    var c := k.client;
    && (c.state.RecvHello? ==> k.toClient != [] && k.toClient[0].ServerHello?)
    && (c.state.SendAccept? || c.state.SendRestart? || c.state.SendIo? || c.state.SendExit? ==> c.queue != [])
    && (c.state.Closing? ==> c.queue == [])
  }

  lemma {:induction false} FormatShaped(log: seq<Record>, c: Client, room: nat)
    requires c.state.SendIo?
    ensures var d := FormatNext(log, c, room); (d.state.SendIo? || d.state.SendExit?) && d.queue != []
    decreases |log| - c.next
  {
    hide Plus, Cmp;
    if c.next < |log| {
      var r := log[c.next];
      var d := c.(elapsed := Plus(c.elapsed, r.delay), next := c.next + 1);
      if IsSet(c.restart) && Cmp(c.restart, d.elapsed, Ge) {
        FormatShaped(log, d, room);
      } else if room > 0 {
        FormatShaped(log, d.(restart := ZERO, queue := d.queue + [Data(r)]), room - 1);
      }
    }
  }

  lemma {:induction false} StartShaped(log: seq<Record>, p: Timespec)
    ensures StartClient(log, p).Some? ==> StartClient(log, p).value.state.RecvHello?
    ensures StartClient(log, ZERO).Some?
  {
  }

  lemma {:induction false} StepShaped(log: seq<Record>, s: System, step: Step)
    requires s.link.Some? ==> Shaped(s.link.value)
    ensures var t := Apply(log, s, step); t.link.Some? ==> Shaped(t.link.value)
  {
    hide FormatNext, StoreRestart, Openable, StartClient, StoreLine, StoreRecordData, StoreData, Cmp;
    StartShaped(log, if step.ConnectRestart? then step.point else ZERO);
    if s.link.Some? && step.ClientSends? {
      var c := s.link.value.client;
      if 0 < step.count <= |c.queue| && (c.state.SendAccept? || c.state.SendRestart? || c.state.SendIo?) {
        FormatShaped(log, c.(state := SendIo, queue := c.queue[step.count..]), step.room);
      }
    }
  }

  lemma {:induction false} EveryRunShaped(log: seq<Record>, compressed: bool, run: seq<Step>)
    ensures var s := Exec(log, compressed, run); s.link.Some? ==> Shaped(s.link.value)
  {
    hide Shaped, Apply;
    if run != [] {
      EveryRunShaped(log, compressed, run[..|run| - 1]);
      StepShaped(log, Exec(log, compressed, run[..|run| - 1]), run[|run| - 1]);
    }
  }

  /** In every run of every log, a commit point that finishes a client finds all
      its messages sent if and only if the client was in CLOSING, the state it
      enters when its last queued byte has been written. */
  lemma {:induction false} FinishesWithExitSentIff(log: seq<Record>, compressed: bool, run: seq<Step>)
    ensures var s := Exec(log, compressed, run); var t := Apply(log, s, ClientReceives);
            s.link.Some? && t.link.Some? && !s.link.value.client.state.Finished? && t.link.value.client.state.Finished? ==>
              (t.link.value.client.queue == [] <==> s.link.value.client.state.Closing?)
  {
    EveryRunShaped(log, compressed, run);
    hide Exec, Cmp;
  }
}
