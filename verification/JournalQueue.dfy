/** Who holds which journal.  A client connection in store-first mode writes a
    journal; when it has finished, the journal is handed to a connection that
    replays it to a relay; if no relay answers it goes to the outgoing queue.
    Connections that keep no journal are not represented. */
module JournalQueue {
  import opened Options

  type Path = nat

  datatype Phase = Initial | Connecting | Running | Exited | Shutdown | Finished

  datatype Role = Storing | Replaying

  /** `journal` is both journal and journal_path, which are set together;
      a stopped connection only waits to be closed. */
  datatype Conn = Conn(role: Role, phase: Phase, logIo: bool, journal: Option<Path>, stopped: bool)

  datatype Message = Accept(expectIo: bool) | Reject | Exit | Restart(path: Path) | Alert | Io

  /** `next` is the identity of the next connection, `files` are the journals on disk. */
  datatype State = State(conns: map<nat, Conn>, queue: seq<Path>, files: set<Path>, next: nat)

  /** How `connect_relay` ends. */
  datatype Dial = AtOnce | InProgress | NoRelay

  datatype Step =
    | NewClient
    | Receive(id: nat, msg: Message, works: bool, temp: Path)
    | LocalCommit(id: nat)
    | RelayCommit(id: nat)
    | Connected(id: nat)
    | ShutDown
    | Close(id: nat, dial: Dial)
    | QueueTimer(lockable: set<Path>, dial: Dial)

  // ---- message handlers ----

  datatype Handled = Handled(conn: Conn, files: set<Path>)

  /** Make sure a storing connection has a journal; mkstemp(3) offers `temp`. */
  function WithJournal(c: Conn, files: set<Path>, temp: Path): Option<Handled> {
    if c.role.Replaying? || c.journal.Some? then Some(Handled(c, files))
    else if temp in files then None
    else Some(Handled(c.(journal := Some(temp)), files + {temp}))
  }

  /** `journal_finish`: the journal is renamed to a new name. */
  function Renamed(c: Conn, files: set<Path>, temp: Path): Option<Handled> {
    if c.role.Replaying? || c.journal.None? then Some(Handled(c, files))
    else if temp in files then None
    else Some(Handled(c.(journal := Some(temp)), files - {c.journal.value} + {temp}))
  }

  /** Messages that may bring in a journal: `works` says whether writing it or
      queueing it for the relay succeeds, after which a connection in its
      initial phase moves on. */
  function Kept(c: Conn, files: set<Path>, works: bool, temp: Path, phase: Phase, logIo: bool): Handled {
    match WithJournal(c, files, temp)
    case None => Handled(c.(stopped := true), files)
    case Some(h) =>
      if !works then h.(conn := h.conn.(stopped := true))
      else if c.phase.Initial? then h.(conn := h.conn.(phase := phase, logIo := logIo)) else h
  }

  function Handle(c: Conn, files: set<Path>, msg: Message, works: bool, temp: Path): Handled {
    var stop := Handled(c.(stopped := true), files);
    match msg
    case Accept(expectIo) =>
      if c.phase.Exited? || c.phase.Finished? then stop
      else Kept(c, files, works, temp, Running, c.logIo || expectIo)
    case Reject =>
      if c.phase.Exited? || c.phase.Finished? then stop
      else Kept(c, files, works, temp, Finished, c.logIo)
    case Alert => Kept(c, files, works, temp, c.phase, c.logIo)
    case Io => if c.phase.Running? && c.logIo && works then Handled(c, files) else stop
    case Exit =>
      if !c.phase.Running? || !works then stop
      else (match Renamed(c, files, temp)
            case None => stop
            case Some(h) => h.(conn := h.conn.(phase := if c.logIo then Exited else Finished)))
    case Restart(path) =>
      if !c.phase.Initial? then stop
      else if c.role.Replaying? then
        Handled(if works then c.(phase := Running, logIo := true) else c.(logIo := true, stopped := true), files)
      else if path !in files then Handled(c.(logIo := true), files)
      else Handled(c.(logIo := true, journal := Some(path), phase := if works then Running else c.phase), files)
  }

  /** Which messages a session allows in its phases. */
  predicate Expected(c: Conn, msg: Message) {
    match msg
    case Accept(_) => !c.phase.Exited? && !c.phase.Finished?
    case Reject => !c.phase.Exited? && !c.phase.Finished?
    case Alert => true
    case Io => c.phase.Running? && c.logIo
    case Exit => c.phase.Running?
    case Restart(_) => c.phase.Initial?
  }

  /** mkstemp(3) gives no new name, where the message needs one for a journal. */
  predicate NoName(c: Conn, files: set<Path>, msg: Message, temp: Path) {
    && c.role.Storing? && temp in files
    && match msg
       case Exit => c.journal.Some?
       case Io => false
       case Restart(_) => false
       case _ => c.journal.None?
  }

  /** A message ends reading if and only if it is not allowed or cannot be kept;
      a client whose restart fails is only sent an error.  One that is not
      allowed changes nothing else. */
  lemma {:induction false} StoppedIff(c: Conn, files: set<Path>, msg: Message, works: bool, temp: Path)
    requires !c.stopped
    ensures var h := Handle(c, files, msg, works, temp);
            && (h.conn.stopped <==>
                !Expected(c, msg) || NoName(c, files, msg, temp) || (!works && !(msg.Restart? && c.role.Storing?)))
            && (!Expected(c, msg) ==> h == Handled(c.(stopped := true), files))
  {
  }

  /** A session begins to run if and only if its first message is an accept that
      is kept, or a restart of a journal that is there; I/O is logged if the
      accept announces it, and after every restart. */
  lemma {:induction false} BeginsIff(c: Conn, files: set<Path>, msg: Message, works: bool, temp: Path)
    requires c.phase.Initial?
    ensures var h := Handle(c, files, msg, works, temp);
            && (h.conn.phase.Running? <==>
                works && if msg.Restart? then c.role.Replaying? || msg.path in files else msg.Accept? && !NoName(c, files, msg, temp))
            && (h.conn.phase.Running? ==> (h.conn.logIo <==> c.logIo || msg.Restart? || (msg.Accept? && msg.expectIo)))
  {
  }

  // ---- handing journals over ----

  /** `connection_closure_free` */
  function Free(s: State, id: nat): State
    requires id in s.conns
  {
    var c := s.conns[id];
    s.(conns := s.conns - {id}, queue := if c.phase.Connecting? && c.journal.Some? then s.queue + [c.journal.value] else s.queue)
  }

  /** A new replaying connection for a journal, and `connect_relay`. */
  function StartReplay(s: State, path: Path, dial: Dial): State {
    if dial.NoRelay? then s.(next := s.next + 1)
    else
      var c := Conn(Replaying, if dial.InProgress? then Connecting else Initial, false, Some(path), false);
      s.(conns := s.conns[s.next := c], next := s.next + 1)
  }

  /** `connection_close` */
  function CloseConn(s: State, id: nat, dial: Dial): State
    requires id in s.conns
  {
    var c := s.conns[id];
    if c.role.Storing? && c.phase.Finished? && c.journal.Some? then
      StartReplay(s.(conns := s.conns - {id}), c.journal.value, dial)
    else
      Free(s.(files := if c.phase.Finished? && c.journal.Some? then s.files - {c.journal.value} else s.files), id)
  }

  /** First queue entry the timer can take: the file is there and can be locked. */
  function Takeable(queue: seq<Path>, files: set<Path>, lockable: set<Path>): (k: nat)
    ensures k <= |queue|
  {
    if queue == [] || (queue[0] in files && queue[0] in lockable) then 0 else 1 + Takeable(queue[1..], files, lockable)
  }

  /** Entries whose file is gone are dropped on the way. */
  function Present(queue: seq<Path>, files: set<Path>): seq<Path> {
    if queue == [] then [] else (if queue[0] in files then [queue[0]] else []) + Present(queue[1..], files)
  }

  /** `outgoing_queue_cb` */
  function Timer(s: State, lockable: set<Path>, dial: Dial): State {
    var k := Takeable(s.queue, s.files, lockable);
    var skipped := Present(s.queue[..k], s.files);
    if k == |s.queue| then s.(queue := skipped)
    else StartReplay(s.(queue := skipped + s.queue[k + 1..]), s.queue[k], dial)
  }

  // ---- runs ----

  function Apply(s: State, step: Step): State {
    match step
    case NewClient => s.(conns := s.conns[s.next := Conn(Storing, Initial, false, None, false)], next := s.next + 1)
    case Receive(id, msg, works, temp) =>
      if id in s.conns && Reads(s.conns[id]) then
        var h := Handle(s.conns[id], s.files, msg, works, temp);
        s.(conns := s.conns[id := h.conn], files := h.files)
      else s
    case LocalCommit(id) =>
      if id in s.conns && s.conns[id].role.Storing? then s.(conns := s.conns[id := Committed(s.conns[id])]) else s
    case RelayCommit(id) =>
      if id in s.conns && s.conns[id].role.Replaying? && !s.conns[id].stopped then
        s.(conns := s.conns[id := RelayCommitted(s.conns[id])])
      else s
    case Connected(id) =>
      if id in s.conns && s.conns[id].phase.Connecting? then s.(conns := s.conns[id := s.conns[id].(phase := Initial)])
      else s
    case ShutDown => s.(conns := map id | id in s.conns :: s.conns[id].(phase := Shutdown))
    case Close(id, dial) => if id in s.conns then CloseConn(s, id, dial) else s
    case QueueTimer(lockable, dial) => Timer(s, lockable, dial)
  }

  predicate Reads(c: Conn) {
    !c.stopped && !c.phase.Connecting? && !c.phase.Shutdown?
  }

  /** `schedule_commit_point` */
  function Committed(c: Conn): Conn {
    if c.phase.Exited? then c.(phase := Finished) else c
  }

  /** `handle_commit_point` for a commit point from the relay */
  function RelayCommitted(c: Conn): Conn {
    if c.phase.Initial? || c.phase.Connecting? then c.(stopped := true) else Committed(c)
  }

  /** A commit point from the relay ends a session that has exited, stops one that
      has not begun, and leaves any other as it is. */
  lemma {:induction false} RelayCommitMeans(s: State, id: nat)
    requires id in s.conns && s.conns[id].role.Replaying? && !s.conns[id].stopped
    ensures var c, d := s.conns[id], Apply(s, RelayCommit(id)).conns[id];
            && (d.stopped <==> c.phase.Initial? || c.phase.Connecting?)
            && (d.phase.Finished? <==> c.phase.Exited? || c.phase.Finished?)
            && d.(stopped := c.stopped, phase := c.phase) == c
  {
  }

  /** `logsrvd_queue_scan` finds the journals of earlier times. */
  function Start(found: seq<Path>, files: set<Path>): State {
    State(map[], found, files, 0)
  }

  function Exec(start: State, run: seq<Step>): State {
    if run == [] then start else Apply(Exec(start, run[..|run| - 1]), run[|run| - 1])
  }

  // ---- every journal has one holder ----

  ghost predicate Holds(s: State, id: nat, path: Path) {
    id in s.conns && s.conns[id].journal == Some(path)
  }

  ghost predicate ConnsOwn(s: State) {
    && (forall id <- s.conns :: id < s.next)
    && (forall id, path :: Holds(s, id, path) ==> path in s.files && path !in s.queue)
    && (forall a, b, path :: Holds(s, a, path) && Holds(s, b, path) ==> a == b)
  }

  ghost predicate Distinct(queue: seq<Path>) {
    forall i, j :: 0 <= i < j < |queue| ==> queue[i] != queue[j]
  }

  /** Each journal is held by at most one connection or queue entry, and every
      held journal is on disk. */
  ghost predicate Owned(s: State) {
    ConnsOwn(s) && Distinct(s.queue) && (forall p <- s.queue :: p in s.files)
  }

  /** A client asks to restart a journal that someone else holds; it is not locked. */
  ghost predicate Steals(s: State, step: Step) {
    && step.Receive? && step.msg.Restart? && step.id in s.conns
    && var c := s.conns[step.id];
       && Reads(c) && c.phase.Initial? && c.role.Storing? && step.msg.path in s.files
       && (step.msg.path in s.queue || exists id :: id != step.id && Holds(s, id, step.msg.path))
  }

  /** What an operation on one connection may do to the set of journals. */
  ghost predicate Moves(c: Conn, files: set<Path>, h: Handled, temp: Path) {
    if h.conn.journal == c.journal then h.files == files
    else
      && temp !in files && h.conn.journal == Some(temp)
      && h.files == files - (if c.journal.Some? then {c.journal.value} else {}) + {temp}
  }

  lemma {:induction false} HandleMoves(c: Conn, files: set<Path>, msg: Message, works: bool, temp: Path)
    requires c.journal.Some? ==> c.journal.value in files
    ensures var h := Handle(c, files, msg, works, temp);
            && h.conn.role == c.role
            && (Moves(c, files, h, temp)
                || (c.role.Storing? && c.phase.Initial? && msg.Restart? && msg.path in files
                    && h.files == files && h.conn.journal == Some(msg.path)))
  {
  }

  /** A connection that takes a new name, or keeps its own, leaves every other
      holder alone. */
  lemma {:induction false} MoveKeepsOwned(s: State, id: nat, h: Handled, temp: Path)
    requires Owned(s) && id in s.conns && Moves(s.conns[id], s.files, h, temp)
    ensures Owned(s.(conns := s.conns[id := h.conn], files := h.files))
  {
    var t := s.(conns := s.conns[id := h.conn], files := h.files);
    forall a, path | Holds(t, a, path) ensures path in t.files && path !in t.queue {
      if a != id {
        assert Holds(s, a, path);
        assert s.conns[id].journal == Some(path) ==> Holds(s, id, path);
      } else if h.conn.journal == s.conns[id].journal {
        assert Holds(s, id, path);
      }
    }
    forall a, b, path | Holds(t, a, path) && Holds(t, b, path) ensures a == b {
      assert a != id ==> Holds(s, a, path);
      assert b != id ==> Holds(s, b, path);
      assert h.conn.journal == s.conns[id].journal && (a == id || b == id) ==> Holds(s, id, path);
    }
    forall p <- t.queue ensures p in t.files {
      assert s.conns[id].journal == Some(p) ==> Holds(s, id, p);
    }
  }

  /** Restarting a journal keeps single ownership exactly when no one else holds it. */
  lemma {:induction false} RestartOwnedIff(s: State, id: nat, d: Conn, path: Path)
    requires Owned(s) && id in s.conns && path in s.files && d.journal == Some(path)
    ensures Owned(s.(conns := s.conns[id := d])) <==> path !in s.queue && !exists a :: a != id && Holds(s, a, path)
  {
    var t := s.(conns := s.conns[id := d]);
    assert Holds(t, id, path);
    forall a, p | a != id ensures Holds(t, a, p) == Holds(s, a, p) {
    }
  }

  /** Giving up a journal leaves every other holder alone. */
  lemma {:induction false} RemoveKeepsOwned(s: State, id: nat, files: set<Path>, queue: seq<Path>)
    requires Owned(s) && id in s.conns
    requires files == s.files || (s.conns[id].journal.Some? && files == s.files - {s.conns[id].journal.value})
    requires queue == s.queue || (s.conns[id].journal.Some? && files == s.files && queue == s.queue + [s.conns[id].journal.value])
    ensures Owned(s.(conns := s.conns - {id}, files := files, queue := queue))
  {
    var t := s.(conns := s.conns - {id}, files := files, queue := queue);
    forall a, path | Holds(t, a, path) ensures path in t.files && path !in t.queue {
      assert Holds(s, a, path);
      assert s.conns[id].journal == Some(path) ==> Holds(s, id, path);
    }
    forall a, b, path | Holds(t, a, path) && Holds(t, b, path) ensures a == b {
      assert Holds(s, a, path) && Holds(s, b, path);
    }
    assert s.conns[id].journal.Some? ==> Holds(s, id, s.conns[id].journal.value);
  }

  /** A journal that no one holds can be given to a new connection. */
  lemma {:induction false} StartKeepsOwned(s: State, path: Path, dial: Dial)
    requires Owned(s) && path in s.files && path !in s.queue && forall a :: !Holds(s, a, path)
    ensures Owned(StartReplay(s, path, dial))
  {
    var t := StartReplay(s, path, dial);
    forall a, p ensures Holds(t, a, p) ==> Holds(s, a, p) || (a == s.next && p == path) {
    }
  }

  lemma {:induction false} CloseKeepsOwned(s: State, id: nat, dial: Dial)
    requires Owned(s) && id in s.conns
    ensures Owned(CloseConn(s, id, dial))
  {
    var c := s.conns[id];
    if c.role.Storing? && c.phase.Finished? && c.journal.Some? {
      var t := s.(conns := s.conns - {id});
      RemoveKeepsOwned(s, id, s.files, s.queue);
      assert t == s.(conns := s.conns - {id}, files := s.files, queue := s.queue);
      assert Holds(s, id, c.journal.value);
      forall a ensures !Holds(t, a, c.journal.value) {
        assert Holds(t, a, c.journal.value) ==> Holds(s, a, c.journal.value);
      }
      StartKeepsOwned(t, c.journal.value, dial);
    } else {
      var t := CloseConn(s, id, dial);
      RemoveKeepsOwned(s, id, t.files, t.queue);
    }
  }

  lemma {:induction false} PresentSame(queue: seq<Path>, files: set<Path>)
    requires forall p <- queue :: p in files
    ensures Present(queue, files) == queue
  {
    if queue != [] {
      PresentSame(queue[1..], files);
    }
  }

  /** The entry taken is the first whose file is there and can be locked. */
  lemma {:induction false} TakeableIsFirst(queue: seq<Path>, files: set<Path>, lockable: set<Path>)
    ensures var k := Takeable(queue, files, lockable);
            && (k < |queue| ==> queue[k] in files && queue[k] in lockable)
            && forall i :: 0 <= i < k ==> queue[i] !in files || queue[i] !in lockable
  {
    if queue != [] && !(queue[0] in files && queue[0] in lockable) {
      TakeableIsFirst(queue[1..], files, lockable);
    }
  }

  lemma {:induction false} DistinctWithout(queue: seq<Path>, k: nat)
    requires Distinct(queue) && k < |queue|
    ensures var rest := queue[..k] + queue[k + 1..]; Distinct(rest) && queue[k] !in rest && forall p <- rest :: p in queue
  {
  }

  lemma {:induction false} TimerKeepsOwned(s: State, lockable: set<Path>, dial: Dial)
    requires Owned(s)
    ensures Owned(Timer(s, lockable, dial))
  {
    var k := Takeable(s.queue, s.files, lockable);
    PresentSame(s.queue[..k], s.files);
    TakeableIsFirst(s.queue, s.files, lockable);
    hide Takeable, Present;
    if k == |s.queue| {
      assert s.queue[..k] == s.queue;
    } else {
      var t := s.(queue := s.queue[..k] + s.queue[k + 1..]);
      DistinctWithout(s.queue, k);
      hide Distinct;
      forall a, path ensures Holds(t, a, path) == Holds(s, a, path) {
      }
      assert s.queue[k] in s.queue;
      StartKeepsOwned(t, s.queue[k], dial);
    }
  }

  /** Changing phases moves no journal. */
  lemma {:induction false} SameJournals(s: State, t: State)
    requires Owned(s) && t.files == s.files && t.queue == s.queue && t.next == s.next && t.conns.Keys == s.conns.Keys
    requires forall id <- s.conns :: t.conns[id].journal == s.conns[id].journal
    ensures Owned(t)
  {
    forall id, path ensures Holds(t, id, path) == Holds(s, id, path) {
    }
  }

  lemma {:induction false} NewClientKeepsOwned(s: State)
    requires Owned(s)
    ensures Owned(Apply(s, NewClient))
  {
    var t := Apply(s, NewClient);
    forall id, path ensures Holds(t, id, path) == Holds(s, id, path) {
    }
  }

  lemma {:induction false} ReceiveOwnedIff(s: State, step: Step)
    requires Owned(s) && step.Receive? && step.id in s.conns && Reads(s.conns[step.id])
    ensures Owned(Apply(s, step)) <==> !Steals(s, step)
  {
    var c := s.conns[step.id];
    assert c.journal.Some? ==> Holds(s, step.id, c.journal.value);
    hide Owned;
    var h := Handle(c, s.files, step.msg, step.works, step.temp);
    HandleMoves(c, s.files, step.msg, step.works, step.temp);
    hide Handle;
    if c.role.Storing? && c.phase.Initial? && step.msg.Restart? && step.msg.path in s.files
       && h.files == s.files && h.conn.journal == Some(step.msg.path) {
      RestartOwnedIff(s, step.id, h.conn, step.msg.path);
    } else {
      MoveKeepsOwned(s, step.id, h, step.temp);
    }
  }

  /** One step keeps single ownership exactly when it is not a restart of a
      journal someone else holds. */
  lemma {:induction false} StepOwnedIff(s: State, step: Step)
    requires Owned(s)
    ensures Owned(Apply(s, step)) <==> !Steals(s, step)
  {
    hide Owned;
    match step {
      case NewClient => NewClientKeepsOwned(s);
      case Receive(id, _, _, _) =>
        if id in s.conns && Reads(s.conns[id]) {
          ReceiveOwnedIff(s, step);
        }
      case Close(id, dial) =>
        if id in s.conns {
          CloseKeepsOwned(s, id, dial);
        }
      case QueueTimer(lockable, dial) => TimerKeepsOwned(s, lockable, dial);
      case _ => SameJournals(s, Apply(s, step));
    }
  }

  /** No step of the run is a restart of a journal someone else holds. */
  ghost predicate NoTheft(start: State, run: seq<Step>) {
    forall k :: 0 <= k < |run| ==> !Steals(Exec(start, run[..k]), run[k])
  }

  lemma {:induction false} EveryRunOwned(found: seq<Path>, files: set<Path>, run: seq<Step>)
    requires Distinct(found) && (forall p <- found :: p in files)
    requires NoTheft(Start(found, files), run)
    ensures Owned(Exec(Start(found, files), run))
  {
    if run != [] {
      var k := |run| - 1;
      var before := run[..k];
      forall i | 0 <= i < |before| ensures !Steals(Exec(Start(found, files), before[..i]), before[i]) {
        assert before[..i] == run[..i];
      }
      EveryRunOwned(found, files, before);
      hide Owned, Steals, Apply;
      StepOwnedIff(Exec(Start(found, files), before), run[k]);
    }
  }

  /** Single ownership holds throughout a run exactly when there is no theft. */
  lemma {:induction false} OwnedThroughoutIff(found: seq<Path>, files: set<Path>, run: seq<Step>)
    requires Distinct(found) && (forall p <- found :: p in files)
    ensures var start := Start(found, files);
            (forall k :: 0 <= k <= |run| ==> Owned(Exec(start, run[..k]))) <==> NoTheft(start, run)
  {
    hide Owned, Steals, Apply, Exec, Start;
    var start := Start(found, files);
    if NoTheft(start, run) {
      forall k | 0 <= k <= |run| ensures Owned(Exec(start, run[..k])) {
        forall i | 0 <= i < k ensures !Steals(Exec(start, run[..k][..i]), run[..k][i]) {
          assert run[..k][..i] == run[..i];
        }
        EveryRunOwned(found, files, run[..k]);
      }
    }
    if forall k :: 0 <= k <= |run| ==> Owned(Exec(start, run[..k])) {
      forall k | 0 <= k < |run| ensures !Steals(Exec(start, run[..k]), run[k]) {
        var j := k + 1;
        assert Owned(Exec(start, run[..k])) && Owned(Exec(start, run[..j]));
        StepOwnedIff(Exec(start, run[..k]), run[k]);
        ExecOne(start, run[..k], run[k]);
        assert run[..k] + [run[k]] == run[..j];
      }
    }
  }

  /** Such a restart is possible: one client logs, another restarts its journal. */
  lemma {:induction false} TheftHappens()
    ensures var run := [NewClient, NewClient, Receive(0, Accept(true), true, 7), Receive(1, Restart(7), true, 8)];
            !Owned(Exec(Start([], {}), run))
  {
    var s0 := Start([], {});
    var r1, r2 := [NewClient], [NewClient, NewClient];
    var accept, steal := Receive(0, Accept(true), true, 7), Receive(1, Restart(7), true, 8);
    var r3 := r2 + [accept];
    var c := Conn(Storing, Initial, false, None, false);
    var d := Conn(Storing, Running, true, Some(7), false);
    var s2 := State(map[0 := c, 1 := c], [], {}, 2);
    var s3 := State(map[0 := d, 1 := c], [], {7}, 2);
    assert Exec(s0, r2) == s2 by {
      ExecOne(s0, [], NewClient);
      ExecOne(s0, r1, NewClient);
      assert [] + [NewClient] == r1 && r1 + [NewClient] == r2;
    }
    assert Apply(s2, accept) == s3;
    ExecOne(s0, r2, accept);
    ExecOne(s0, r3, steal);
    hide Exec;
    assert r3 + [steal] == [NewClient, NewClient, accept, steal];
    var s4 := Apply(s3, steal);
    assert Holds(s4, 0, 7) && Holds(s4, 1, 7);
  }

  /** A journal can be stranded: its client leaves before Exit. */
  lemma {:induction false} StrandingHappens(dial: Dial)
    ensures var s := Exec(Start([], {}), [NewClient, Receive(0, Accept(true), true, 7), Close(0, dial)]);
            7 in s.files && !Tracked(s, 7)
  {
    var s0, accept, leave := Start([], {}), Receive(0, Accept(true), true, 7), Close(0, dial);
    var s1 := State(map[0 := Conn(Storing, Initial, false, None, false)], [], {}, 1);
    var s2 := State(map[0 := Conn(Storing, Running, true, Some(7), false)], [], {7}, 1);
    ExecOne(s0, [], NewClient);
    ExecOne(s0, [NewClient], accept);
    ExecOne(s0, [NewClient, accept], leave);
    assert Apply(s0, NewClient) == s1 && Apply(s1, accept) == s2;
    hide Exec;
    assert [] + [NewClient] == [NewClient] && [NewClient] + [accept] == [NewClient, accept];
    assert [NewClient, accept] + [leave] == [NewClient, accept, leave];
  }

  lemma {:induction false} ExecOne(start: State, run: seq<Step>, step: Step)
    ensures Exec(start, run + [step]) == Apply(Exec(start, run), step)
  {
    assert (run + [step])[..|run|] == run;
  }

  // ---- when a journal is removed ----

  /** The connection takes the message of this step. */
  ghost predicate Takes(s: State, step: Step, id: nat) {
    step.Receive? && step.id == id && step.works && id in s.conns && Reads(s.conns[id])
  }

  /** The step ends the session at once: a rejected command, or the exit of one
      whose I/O is not logged. */
  ghost predicate Ends(s: State, step: Step, id: nat) {
    && Takes(s, step, id)
    && var c := s.conns[id];
       if step.msg.Reject? then c.phase.Initial? && (c.role.Replaying? || c.journal.Some? || step.temp !in s.files)
       else step.msg.Exit? && c.phase.Running? && !c.logIo && (c.role.Replaying? || c.journal.None? || step.temp !in s.files)
  }

  /** The step is the exit of a session whose I/O is logged. */
  ghost predicate Exits(s: State, step: Step, id: nat) {
    && Takes(s, step, id) && step.msg.Exit?
    && var c := s.conns[id];
       c.phase.Running? && c.logIo && (c.role.Replaying? || c.journal.None? || step.temp !in s.files)
  }

  /** The step is a commit point for the connection: its own while it stores, the
      relay's while it replays. */
  ghost predicate Commits(s: State, step: Step, id: nat) {
    id in s.conns && if s.conns[id].role.Storing? then step == LocalCommit(id) else step == RelayCommit(id) && !s.conns[id].stopped
  }

  /** There is no shutdown after step i. */
  ghost predicate Quiet(run: seq<Step>, i: nat) {
    forall j :: i < j < |run| ==> !run[j].ShutDown?
  }

  ghost predicate EndsAt(start: State, run: seq<Step>, i: nat, id: nat)
    requires i < |run|
  {
    Ends(Exec(start, run[..i]), run[i], id) && Quiet(run, i)
  }

  ghost predicate ExitsAt(start: State, run: seq<Step>, i: nat, id: nat)
    requires i < |run|
  {
    Exits(Exec(start, run[..i]), run[i], id) && Quiet(run, i)
  }

  ghost predicate CommittedSince(start: State, run: seq<Step>, i: nat, id: nat) {
    exists j :: i < j < |run| && Commits(Exec(start, run[..j]), run[j], id)
  }

  ghost predicate EndedAtOnce(start: State, run: seq<Step>, id: nat) {
    exists i :: 0 <= i < |run| && EndsAt(start, run, i, id)
  }

  ghost predicate AwaitsCommit(start: State, run: seq<Step>, id: nat) {
    exists i :: 0 <= i < |run| && ExitsAt(start, run, i, id) && !CommittedSince(start, run, i, id)
  }

  ghost predicate ExitThenCommit(start: State, run: seq<Step>, id: nat) {
    exists i :: 0 <= i < |run| && ExitsAt(start, run, i, id) && CommittedSince(start, run, i, id)
  }

  lemma {:induction false} OneStepMore(start: State, run: seq<Step>, step: Step, id: nat, i: nat)
    requires i < |run|
    ensures EndsAt(start, run + [step], i, id) <==> EndsAt(start, run, i, id) && !step.ShutDown?
    ensures ExitsAt(start, run + [step], i, id) <==> ExitsAt(start, run, i, id) && !step.ShutDown?
  {
    hide Exec, Exits, Ends;
    var all := run + [step];
    assert all[..i] == run[..i] && all[|run|] == step;
    forall j | 0 <= j < |run| ensures run[j] == all[j] {
    }
  }

  lemma {:induction false} OneCommitMore(start: State, run: seq<Step>, step: Step, id: nat, i: nat)
    requires i < |run|
    ensures CommittedSince(start, run + [step], i, id) <==> CommittedSince(start, run, i, id) || Commits(Exec(start, run), step, id)
  {
    hide Exec, Commits;
    var all := run + [step];
    assert all[..|run|] == run && all[|run|] == step;
    assert forall j :: 0 <= j < |run| ==> all[j] == run[j] && all[..j] == run[..j];
    if CommittedSince(start, run, i, id) {
      var j :| i < j < |run| && Commits(Exec(start, run[..j]), run[j], id);
      assert Commits(Exec(start, all[..j]), all[j], id);
    }
    if Commits(Exec(start, run), step, id) {
      assert Commits(Exec(start, all[..|run|]), all[|run|], id);
    }
  }

  lemma {:induction false} LastStep(start: State, run: seq<Step>, step: Step, id: nat)
    ensures var all := run + [step];
            && (EndsAt(start, all, |run|, id) <==> Ends(Exec(start, run), step, id))
            && (ExitsAt(start, all, |run|, id) <==> Exits(Exec(start, run), step, id))
            && !CommittedSince(start, all, |run|, id)
    ensures Ends(Exec(start, run), step, id) || Exits(Exec(start, run), step, id) ==> !step.ShutDown?
  {
    hide Exec;
    var all := run + [step];
    assert all[..|run|] == run && all[|run|] == step;
  }

  lemma {:induction false} EndedOneMore(start: State, run: seq<Step>, step: Step, id: nat)
    ensures EndedAtOnce(start, run + [step], id) <==> !step.ShutDown? && (EndedAtOnce(start, run, id) || Ends(Exec(start, run), step, id))
  {
    hide Exec, Ends, EndsAt;
    LastStep(start, run, step, id);
    forall i: nat | i < |run| ensures EndsAt(start, run + [step], i, id) <==> EndsAt(start, run, i, id) && !step.ShutDown? {
      OneStepMore(start, run, step, id, i);
    }
  }

  lemma {:induction false} AwaitsOneMore(start: State, run: seq<Step>, step: Step, id: nat)
    ensures var s := Exec(start, run);
            AwaitsCommit(start, run + [step], id) <==>
            !step.ShutDown? && ((AwaitsCommit(start, run, id) && !Commits(s, step, id)) || Exits(s, step, id))
  {
    hide Exec, Exits, ExitsAt, Commits, CommittedSince;
    LastStep(start, run, step, id);
    forall i: nat | i < |run|
      ensures ExitsAt(start, run + [step], i, id) <==> ExitsAt(start, run, i, id) && !step.ShutDown?
      ensures CommittedSince(start, run + [step], i, id) <==> CommittedSince(start, run, i, id) || Commits(Exec(start, run), step, id)
    {
      OneStepMore(start, run, step, id, i);
      OneCommitMore(start, run, step, id, i);
    }
  }

  lemma {:induction false} CommitOneMore(start: State, run: seq<Step>, step: Step, id: nat)
    ensures var s := Exec(start, run);
            ExitThenCommit(start, run + [step], id) <==>
            !step.ShutDown? && (ExitThenCommit(start, run, id) || (AwaitsCommit(start, run, id) && Commits(s, step, id)))
  {
    hide Exec, Exits, ExitsAt, Commits, CommittedSince;
    LastStep(start, run, step, id);
    forall i: nat | i < |run|
      ensures ExitsAt(start, run + [step], i, id) <==> ExitsAt(start, run, i, id) && !step.ShutDown?
      ensures CommittedSince(start, run + [step], i, id) <==> CommittedSince(start, run, i, id) || Commits(Exec(start, run), step, id)
    {
      OneStepMore(start, run, step, id, i);
      OneCommitMore(start, run, step, id, i);
    }
  }

  /** The phase of a connection tells its past, and the past its phase: it waits
      for a commit point after the exit of a session with I/O logging, and it has
      finished once that has come, or when the session ended at once.  A journal
      stands behind every session that was accepted or replayed. */
  ghost predicate PhaseExplained(c: Conn, ended: bool, awaits: bool, committed: bool) {
    && (c.phase.Exited? <==> awaits) && (c.phase.Finished? <==> ended || committed)
    && (c.role.Replaying? ==> c.journal.Some? && (ended ==> !c.logIo) && (c.logIo && (c.phase.Initial? || c.phase.Connecting?) ==> c.stopped))
    && (c.role.Storing? ==> !c.phase.Connecting? && (c.phase.Running? || c.phase.Exited? || c.phase.Finished? ==> c.journal.Some?))
    && (awaits ==> c.logIo && !ended)
  }

  ghost predicate Explained(start: State, run: seq<Step>) {
    var s := Exec(start, run);
    && (forall id <- s.conns ::
          id < s.next
          && PhaseExplained(s.conns[id], EndedAtOnce(start, run, id), AwaitsCommit(start, run, id), ExitThenCommit(start, run, id)))
    && (forall id: nat :: s.next <= id ==>
          !EndedAtOnce(start, run, id) && !AwaitsCommit(start, run, id) && !ExitThenCommit(start, run, id))
  }

  lemma {:induction false} ReceiveExplained(s: State, step: Step, id: nat, ended: bool, awaits: bool, committed: bool)
    requires step.Receive? && step.id == id && id in s.conns && Reads(s.conns[id])
    requires PhaseExplained(s.conns[id], ended, awaits, committed)
    ensures PhaseExplained(Handle(s.conns[id], s.files, step.msg, step.works, step.temp).conn,
                           ended || Ends(s, step, id), awaits || Exits(s, step, id), committed)
  {
  }

  /** A connection that is there before and after a step. */
  lemma {:induction false} StaysExplained(s: State, step: Step, id: nat, ended: bool, awaits: bool, committed: bool)
    requires id in s.conns && id in Apply(s, step).conns && id < s.next
    requires PhaseExplained(s.conns[id], ended, awaits, committed)
    ensures var on := !step.ShutDown?;
            PhaseExplained(Apply(s, step).conns[id], on && (ended || Ends(s, step, id)),
                           on && ((awaits && !Commits(s, step, id)) || Exits(s, step, id)),
                           on && (committed || (awaits && Commits(s, step, id))))
  {
    if step.Receive? && step.id == id && Reads(s.conns[id]) {
      ReceiveExplained(s, step, id, ended, awaits, committed);
    }
    hide Handle, Present, Takeable;
  }

  lemma {:induction false} ComesExplained(s: State, step: Step, id: nat)
    requires id in Apply(s, step).conns && id !in s.conns && (forall a <- s.conns :: a < s.next)
    ensures id == s.next && PhaseExplained(Apply(s, step).conns[id], false, false, false)
  {
    hide Handle, Present, Takeable;
  }

  lemma {:induction false} NextGrows(s: State, step: Step)
    requires forall a <- s.conns :: a < s.next
    ensures s.next <= Apply(s, step).next && forall a <- Apply(s, step).conns :: a < Apply(s, step).next
  {
    hide Handle, Present, Takeable;
  }

  lemma {:induction false} StepExplained(start: State, run: seq<Step>, step: Step)
    requires Explained(start, run)
    ensures Explained(start, run + [step])
  {
    var s := Exec(start, run);
    var t := Apply(s, step);
    ExecOne(start, run, step);
    NextGrows(s, step);
    hide Exec, EndedAtOnce, AwaitsCommit, ExitThenCommit, PhaseExplained, Apply;
    forall id: nat
      ensures id in t.conns ==>
                PhaseExplained(t.conns[id], EndedAtOnce(start, run + [step], id), AwaitsCommit(start, run + [step], id),
                               ExitThenCommit(start, run + [step], id))
      ensures t.next <= id ==> !EndedAtOnce(start, run + [step], id) && !AwaitsCommit(start, run + [step], id)
                               && !ExitThenCommit(start, run + [step], id)
    {
      EndedOneMore(start, run, step, id);
      AwaitsOneMore(start, run, step, id);
      CommitOneMore(start, run, step, id);
      if id in t.conns && id in s.conns {
        StaysExplained(s, step, id, EndedAtOnce(start, run, id), AwaitsCommit(start, run, id), ExitThenCommit(start, run, id));
      } else if id in t.conns {
        ComesExplained(s, step, id);
      }
    }
  }

  lemma {:induction false} EveryRunExplained(found: seq<Path>, files: set<Path>, run: seq<Step>)
    ensures Explained(Start(found, files), run)
  {
    if run != [] {
      var k := |run| - 1;
      EveryRunExplained(found, files, run[..k]);
      StepExplained(Start(found, files), run[..k], run[k]);
      assert run == run[..k] + [run[k]];
    }
  }

  /** Which paths a step takes off the disk. */
  lemma {:induction false} RemovedBy(s: State, step: Step, path: Path)
    requires path in s.files && path !in Apply(s, step).files
    ensures (step.Receive? || step.Close?) && step.id in s.conns && s.conns[step.id].journal == Some(path)
    ensures var c := s.conns[step.id];
            if step.Receive? then step.msg.Exit? && c.role.Storing? && Apply(s, step).conns[step.id].journal == Some(step.temp)
            else c.role.Replaying? && c.phase.Finished?
  {
    hide Present;
  }

  /** In every run, a journal leaves the disk only by being renamed when its
      client sends Exit, or by being removed when a connection that replayed it
      to a relay is closed; if that session logged I/O, the relay sent a commit
      point after the session's Exit had been queued for it. */
  lemma {:induction false} RemovedOnlyWhenRelayed(found: seq<Path>, files: set<Path>, run: seq<Step>, step: Step, path: Path)
    requires var s := Exec(Start(found, files), run); path in s.files && path !in Apply(s, step).files
    ensures var s := Exec(Start(found, files), run);
            && (step.Receive? || step.Close?) && step.id in s.conns && s.conns[step.id].journal == Some(path)
            && (step.Receive? ==> step.msg.Exit? && s.conns[step.id].role.Storing?
                                  && Apply(s, step).conns[step.id].journal == Some(step.temp))
            && (step.Close? ==> s.conns[step.id].role.Replaying? && s.conns[step.id].phase.Finished?)
            && (step.Close? && s.conns[step.id].logIo ==> ExitThenCommit(Start(found, files), run, step.id))
  {
    RemovedBy(Exec(Start(found, files), run), step, path);
    EveryRunExplained(found, files, run);
    hide Apply, ExitThenCommit, AwaitsCommit, EndedAtOnce, Exec;
  }

  /** The session ended at once, or exited and was then committed. */
  ghost predicate Done(start: State, run: seq<Step>, id: nat) {
    EndedAtOnce(start, run, id) || ExitThenCommit(start, run, id)
  }

  /** In every run a connection waits for a commit point exactly after an exit
      without one, and has finished exactly when its session is done. */
  lemma {:induction false} PhaseIff(found: seq<Path>, files: set<Path>, run: seq<Step>, id: nat)
    requires id in Exec(Start(found, files), run).conns
    ensures var c := Exec(Start(found, files), run).conns[id];
            && (c.phase.Exited? <==> AwaitsCommit(Start(found, files), run, id))
            && (c.phase.Finished? <==> Done(Start(found, files), run, id))
  {
    EveryRunExplained(found, files, run);
    hide ExitThenCommit, AwaitsCommit, EndedAtOnce, Exec;
  }

  /** Closing a client whose session is done always gives its journal to a new
      connection that replays it, if there is a relay. */
  lemma {:induction false} DoneIsHandedOver(found: seq<Path>, files: set<Path>, run: seq<Step>, id: nat, dial: Dial)
    requires var s := Exec(Start(found, files), run); id in s.conns && s.conns[id].role.Storing?
    requires Done(Start(found, files), run, id)
    ensures var s := Exec(Start(found, files), run); var t := Apply(s, Close(id, dial));
            && s.conns[id].journal.Some? && t.files == s.files && t.queue == s.queue
            && t.conns == (s.conns - {id}) +
                          if dial.NoRelay? then map[]
                          else map[s.next := Conn(Replaying, if dial.InProgress? then Connecting else Initial, false, s.conns[id].journal, false)]
  {
    EveryRunExplained(found, files, run);
    hide ExitThenCommit, AwaitsCommit, EndedAtOnce, Exec;
    var s := Exec(Start(found, files), run);
    assert s.conns[id].phase.Finished?;
  }

  /** Closing a connection takes a journal off the disk if and only if the
      connection replayed it and the session is done. */
  lemma {:induction false} RemovedIffRelayed(found: seq<Path>, files: set<Path>, run: seq<Step>, id: nat, dial: Dial, path: Path)
    requires var s := Exec(Start(found, files), run); id in s.conns && path in s.files
    ensures var s := Exec(Start(found, files), run);
            path !in Apply(s, Close(id, dial)).files <==>
            s.conns[id].role.Replaying? && s.conns[id].journal == Some(path) && Done(Start(found, files), run, id)
  {
    EveryRunExplained(found, files, run);
    hide ExitThenCommit, AwaitsCommit, EndedAtOnce, Exec;
  }

  lemma {:induction false} FourSteps(start: State, before: seq<Step>, more: seq<Step>, a: State, b: State, c: State, d: State)
    requires |more| == 4 && Apply(Exec(start, before), more[0]) == a
    requires Apply(a, more[1]) == b && Apply(b, more[2]) == c && Apply(c, more[3]) == d
    ensures Exec(start, before + more) == d
  {
    hide Apply, Exec;
    ExecOne(start, before, more[0]);
    ExecOne(start, before + more[..1], more[1]);
    ExecOne(start, before + more[..2], more[2]);
    ExecOne(start, before + more[..3], more[3]);
    assert before + more[..1] == before + [more[0]] && before + more[..2] == before + more[..1] + [more[1]];
    assert before + more[..3] == before + more[..2] + [more[2]] && before + more == before + more[..3] + [more[3]];
  }

  function StoringRun(p: Path, q: Path): seq<Step> {
    [NewClient, Receive(0, Accept(true), true, p), Receive(0, Exit, true, q), LocalCommit(0), Close(0, AtOnce)]
  }

  function ReplayingRun(p: Path, dial: Dial): seq<Step> {
    [Receive(1, Accept(true), true, p), Receive(1, Exit, true, p), RelayCommit(1), Close(1, dial)]
  }

  /** The life of a journal: written, renamed at the exit and handed over, */
  lemma {:induction false} JournalIsStored(p: Path, q: Path)
    requires p != q
    ensures Exec(Start([], {}), StoringRun(p, q)) == State(map[1 := Conn(Replaying, Initial, false, Some(q), false)], [], {q}, 2)
  {
    var s0, run := Start([], {}), StoringRun(p, q);
    var c := Conn(Storing, Running, true, Some(p), false);
    var a1 := State(map[0 := Conn(Storing, Initial, false, None, false)], [], {}, 1);
    var a2 := State(map[0 := c], [], {p}, 1);
    var a3 := State(map[0 := c.(journal := Some(q), phase := Exited)], [], {q}, 1);
    var a4 := State(map[0 := c.(journal := Some(q), phase := Finished)], [], {q}, 1);
    hide Takeable, Present;
    FourSteps(s0, [], run[..4], a1, a2, a3, a4);
    ExecOne(s0, run[..4], run[4]);
    assert [] + run[..4] == run[..4] && run[..4] + [run[4]] == run;
  }

  /** replayed and removed. */
  lemma {:induction false} JournalIsRelayed(p: Path, q: Path, dial: Dial)
    requires p != q
    ensures Exec(Start([], {}), StoringRun(p, q) + ReplayingRun(p, dial)) == State(map[], [], {}, 2)
  {
    var d := Conn(Replaying, Initial, false, Some(q), false);
    var b1 := State(map[1 := d.(phase := Running, logIo := true)], [], {q}, 2);
    var b2 := State(map[1 := d.(phase := Exited, logIo := true)], [], {q}, 2);
    var b3 := State(map[1 := d.(phase := Finished, logIo := true)], [], {q}, 2);
    hide Takeable, Present, Exec, StoringRun;
    JournalIsStored(p, q);
    FourSteps(Start([], {}), StoringRun(p, q), ReplayingRun(p, dial), b1, b2, b3, State(map[], [], {}, 2));
  }

  // ---- when a journal is stranded ----

  /** A connection or the queue knows of the journal. */
  ghost predicate Tracked(s: State, path: Path) {
    path in s.queue || exists id :: Holds(s, id, path)
  }

  /** Closing this connection forgets its journal and leaves it on disk: a
      client's journal that was not finished or finds no relay, or a replay
      that got past connecting and did not finish. */
  predicate ForgetsOnClose(c: Conn, dial: Dial) {
    if c.role.Storing? && c.phase.Finished? then dial.NoRelay? else !c.phase.Finished? && !c.phase.Connecting?
  }

  /** The steps that forget a journal without removing it. */
  ghost predicate Strands(s: State, step: Step, path: Path) {
    match step
    case Close(id, dial) => Holds(s, id, path) && ForgetsOnClose(s.conns[id], dial)
    case QueueTimer(lockable, dial) =>
      var k := Takeable(s.queue, s.files, lockable);
      k < |s.queue| && s.queue[k] == path && dial.NoRelay?
    case Receive(id, msg, _, _) =>
      && Holds(s, id, path) && Reads(s.conns[id]) && s.conns[id].role.Storing? && s.conns[id].phase.Initial?
      && msg.Restart? && msg.path in s.files && msg.path != path
    case _ => false
  }

  lemma {:induction false} StrandedByReceive(s: State, step: Step, path: Path)
    requires Owned(s) && Tracked(s, path) && step.Receive? && step.id in s.conns && Reads(s.conns[step.id])
    ensures var t := Apply(s, step); (path in t.files && !Tracked(t, path)) <==> Strands(s, step, path)
  {
    var id, t := step.id, Apply(s, step);
    var c := s.conns[id];
    assert c.journal.Some? ==> Holds(s, id, c.journal.value);
    HandleMoves(c, s.files, step.msg, step.works, step.temp);
    RestartTakes(c, s.files, step.msg, step.works, step.temp);
    hide Handle;
    forall a | a != id ensures Holds(t, a, path) == Holds(s, a, path) {
    }
    if !Holds(s, id, path) {
      if path !in s.queue {
        var a :| Holds(s, a, path);
        assert Holds(t, a, path);
      }
    } else if t.conns[id].journal == c.journal {
      assert Holds(t, id, path);
    }
  }

  lemma {:induction false} RestartTakes(c: Conn, files: set<Path>, msg: Message, works: bool, temp: Path)
    ensures c.role.Storing? && c.phase.Initial? && msg.Restart? && msg.path in files ==>
              var h := Handle(c, files, msg, works, temp); h.files == files && h.conn.journal == Some(msg.path)
  {
  }

  lemma {:induction false} StrandedByClose(s: State, id: nat, dial: Dial, path: Path)
    requires Owned(s) && Tracked(s, path) && id in s.conns
    ensures var t := CloseConn(s, id, dial);
            (path in t.files && !Tracked(t, path)) <==> Holds(s, id, path) && ForgetsOnClose(s.conns[id], dial)
  {
    var c, t := s.conns[id], CloseConn(s, id, dial);
    forall a | a in s.conns && a != id ensures a != s.next && Holds(t, a, path) == Holds(s, a, path) {
    }
    if Holds(s, id, path) {
      if c.role.Storing? && c.phase.Finished? && !dial.NoRelay? {
        assert Holds(t, s.next, path);
      } else {
        forall a ensures !Holds(t, a, path) {
          assert a in t.conns ==> a in s.conns && a != id;
        }
      }
    } else if path !in s.queue {
      var a :| Holds(s, a, path);
      assert Holds(t, a, path);
      assert c.journal.Some? ==> Holds(s, id, c.journal.value);
    } else {
      assert c.journal.Some? ==> Holds(s, id, c.journal.value);
    }
  }

  lemma {:induction false} StrandedByTimer(s: State, lockable: set<Path>, dial: Dial, path: Path)
    requires Owned(s) && Tracked(s, path)
    ensures var t := Timer(s, lockable, dial);
            (path in t.files && !Tracked(t, path)) <==> Strands(s, QueueTimer(lockable, dial), path)
  {
    var k, t := Takeable(s.queue, s.files, lockable), Timer(s, lockable, dial);
    PresentSame(s.queue[..k], s.files);
    hide Takeable, Present;
    forall a | a in s.conns ensures a != s.next && Holds(t, a, path) == Holds(s, a, path) {
    }
    if k == |s.queue| {
      assert s.queue[..k] == s.queue;
    } else {
      Without(s.queue, k, path);
      if s.queue[k] == path {
        assert path in s.queue;
        forall a ensures !Holds(s, a, path) {
        }
        if !dial.NoRelay? {
          assert Holds(t, s.next, path);
        } else {
          forall a ensures !Holds(t, a, path) {
          }
        }
      } else if path !in s.queue {
        var a :| Holds(s, a, path);
        assert Holds(t, a, path);
      }
    }
  }

  lemma {:induction false} Without(queue: seq<Path>, k: nat, path: Path)
    requires k < |queue| && Distinct(queue)
    ensures path in queue[..k] + queue[k + 1..] <==> path in queue && path != queue[k]
  {
    assert queue == queue[..k] + [queue[k]] + queue[k + 1..];
  }

  /** While ownership is single, a step leaves a journal on disk that nothing
      knows of any more, until the next start finds it, if and only if it is one
      of these. */
  lemma {:induction false} StrandedIff(s: State, step: Step, path: Path)
    requires Owned(s) && Tracked(s, path)
    ensures var t := Apply(s, step); (path in t.files && !Tracked(t, path)) <==> Strands(s, step, path)
  {
    match step {
      case Receive(id, _, _, _) =>
        if id in s.conns && Reads(s.conns[id]) {
          StrandedByReceive(s, step, path);
        }
      case Close(id, dial) =>
        if id in s.conns {
          StrandedByClose(s, id, dial, path);
        }
      case QueueTimer(lockable, dial) => StrandedByTimer(s, lockable, dial, path);
      case _ => StillTracked(s, step, path);
    }
  }

  lemma {:induction false} StillTracked(s: State, step: Step, path: Path)
    requires Owned(s) && Tracked(s, path) && !step.Receive? && !step.Close? && !step.QueueTimer?
    ensures Tracked(Apply(s, step), path)
  {
    if path !in s.queue {
      var a :| Holds(s, a, path);
      assert Holds(Apply(s, step), a, path);
    }
  }

  lemma {:induction false} PresentSnoc(queue: seq<Path>, p: Path, files: set<Path>)
    ensures Present(queue + [p], files) == Present(queue, files) + if p in files then [p] else []
  {
    if queue == [] {
      assert queue + [p] == [p];
    } else {
      PresentSnoc(queue[1..], p, files);
      assert (queue + [p])[1..] == queue[1..] + [p];
    }
  }

  /** The timer has passed the first i entries of `all`; the queue now is
      `queue` and it stands at pos. */
  ghost predicate Walked(all: seq<Path>, files: set<Path>, lockable: set<Path>, i: nat, queue: seq<Path>, pos: nat) {
    && i <= |all| && Takeable(all, files, lockable) == i + Takeable(all[i..], files, lockable)
    && pos == |Present(all[..i], files)| && queue == Present(all[..i], files) + all[i..]
  }

  lemma {:induction false} WalkOn(all: seq<Path>, files: set<Path>, lockable: set<Path>, i: nat, queue: seq<Path>, pos: nat)
    requires Walked(all, files, lockable, i, queue, pos) && pos < |queue|
    ensures i < |all| && queue[pos] == all[i]
    ensures queue[pos] !in files ==> Walked(all, files, lockable, i + 1, queue[..pos] + queue[pos + 1..], pos)
    ensures queue[pos] in files && queue[pos] !in lockable ==> Walked(all, files, lockable, i + 1, queue, pos + 1)
    ensures queue[pos] in files && queue[pos] in lockable ==> i == Takeable(all, files, lockable)
    ensures queue[..pos] + queue[pos + 1..] == Present(all[..i], files) + all[i + 1..]
  {
    var path := queue[pos];
    assert path == all[i] && all[i..][1..] == all[i + 1..];
    assert Takeable(all[i..], files, lockable)
        == if path in files && path in lockable then 0 else 1 + Takeable(all[i + 1..], files, lockable);
    PresentSnoc(all[..i], path, files);
    assert all[..i] + [path] == all[..i + 1];
    hide Present, Takeable;
    assert queue[..pos] == Present(all[..i], files) && queue[pos + 1..] == all[i + 1..];
    assert queue == queue[..pos] + [path] + queue[pos + 1..];
  }

  lemma {:induction false} WalkStarts(all: seq<Path>, files: set<Path>, lockable: set<Path>)
    ensures Walked(all, files, lockable, 0, all, 0)
  {
    assert all[0..] == all;
  }

  lemma {:induction false} WalkEnds(all: seq<Path>, files: set<Path>, lockable: set<Path>, i: nat, queue: seq<Path>, pos: nat)
    requires Walked(all, files, lockable, i, queue, pos) && pos >= |queue|
    ensures Takeable(all, files, lockable) == |all| && queue == Present(all[..|all|], files)
  {
    assert all[i..] == [] && i == |all|;
  }

  /** The server's connections and its outgoing queue, changed in place. */
  class LogServer {
    var conns: map<nat, Conn>
    var queue: seq<Path>
    var files: set<Path>
    var next: nat

    function View(): State
      reads this
    {
      State(conns, queue, files, next)
    }

    /** `connection_closure_free`, with `logsrvd_queue_insert` */
    method ClosureFree(id: nat)
      requires id in conns
      modifies this`conns, this`queue
      ensures View() == Free(old(View()), id)
      ensures queue == old(queue) + (var c := old(conns[id]); if c.phase.Connecting? && c.journal.Some? then [c.journal.value] else [])
    {
      var c := conns[id];
      conns := conns - {id};
      if c.phase.Connecting? && c.journal.Some? {
        queue := queue + [c.journal.value];
      }
    }

    /** `connection_closure_alloc` for a relay, and `connect_relay` */
    method OpenRelay(path: Path, dial: Dial)
      requires next !in conns
      modifies this`conns, this`queue, this`next
      ensures View() == StartReplay(old(View()), path, dial)
    {
      var id := next;
      next := next + 1;
      conns := conns[id := Conn(Replaying, Initial, false, Some(path), false)];
      match dial {
        case AtOnce =>
        case InProgress => conns := conns[id := conns[id].(phase := Connecting)];
        case NoRelay => ClosureFree(id);
      }
      assert old(conns)[id := Conn(Replaying, Initial, false, Some(path), false)] - {id} == old(conns);
    }

    /** `connection_close` */
    method ConnectionClose(id: nat, dial: Dial)
      requires id in conns && next !in conns && id < next
      modifies this
      ensures View() == CloseConn(old(View()), id, dial)
    {
      var c := conns[id];
      if c.role.Storing? && c.phase.Finished? && c.journal.Some? {
        conns := conns[id := c.(journal := None)];
        OpenRelay(c.journal.value, dial);
        c := conns[id];
      }
      if c.phase.Finished? && c.journal.Some? {
        files := files - {c.journal.value};
      }
      ClosureFree(id);
    }

    /** `outgoing_queue_cb`: walk the queue, dropping entries whose file is
        gone, up to the first journal that can be locked. */
    method QueueCb(lockable: set<Path>, dial: Dial)
      requires next !in conns
      modifies this
      ensures View() == Timer(old(View()), lockable, dial)
    {
      ghost var all, i := queue, 0;
      var pos := 0;
      WalkStarts(all, files, lockable);
      hide Walked, Present, Takeable, StartReplay;
      while pos < |queue|
        invariant Walked(all, files, lockable, i, queue, pos)
        invariant conns == old(conns) && files == old(files) && next == old(next)
        decreases |queue| - pos
      {
        WalkOn(all, files, lockable, i, queue, pos);
        var path := queue[pos];
        if path !in files {
          queue := queue[..pos] + queue[pos + 1..];
        } else if path !in lockable {
          pos := pos + 1;
        } else {
          queue := queue[..pos] + queue[pos + 1..];
          ghost var s := View();
          OpenRelay(path, dial);
          assert View() == StartReplay(s, path, dial);
          return;
        }
        i := i + 1;
      }
      WalkEnds(all, files, lockable, i, queue, pos);
    }
  }
}
