/** One I/O log travelling from client to server over connections that may
    break at any moment: the client's state machine, the server's, the two
    directions of the connection and the files on disk, as one step system.
    A run is any sequence of steps. */
module Session {
  import opened Timespecs
  import opened IoLogs
  import opened Options
  import opened ResumeSearch
  import opened LocalStore

  datatype ClientMsg = Hello | Accept | Restart(point: Timespec) | Data(record: Record) | Exit

  datatype ServerMsg = ServerHello | LogId | Commit(point: Timespec) | Error

  datatype ClientState = RecvHello | SendRestart | SendAccept | SendIo | SendExit | Closing | Finished | Failed

  /** `first` is where this session's records begin; the others are fields of
      the client closure, with the queued messages not yet fully written. */
  datatype Client = Client(
    state: ClientState, restart: Timespec, elapsed: Timespec, committed: Timespec,
    first: nat, next: nat, queue: seq<ClientMsg>)

  datatype ServerState = Initial | Running | Exited | Done | Refused

  /** `writing` is a record whose data is stored and whose line is not. */
  datatype Server = Server(state: ServerState, at: Handles, writing: Option<Record>, commitDue: bool)

  datatype Link = Link(client: Client, server: Server, toServer: seq<ClientMsg>, toClient: seq<ServerMsg>)

  /** `known` are the commit points the client has received so far. */
  datatype System = System(disk: Disk, created: bool, compressed: bool, link: Option<Link>, known: set<Timespec>)

  // ---- the client (logsrvd/sendlog.c) ----

  const ALL_STREAMS: set<StreamId> := {0, 1, 2, 3, 4}

  /** The client opens its log and, on a restart, seeks in it to the restart point. */
  function StartClient(log: seq<Record>, restart: Timespec): Option<Client> {
    if !IsSet(restart) then Some(Client(RecvHello, ZERO, ZERO, ZERO, 0, 0, [Hello]))
    else match ResumeIndex(Lines(log), ALL_STREAMS, restart, 0)
         case None => None
         case Some(k) => Some(Client(RecvHello, restart, restart, ZERO, k, k, [Hello]))
  }

  /** `fmt_next_iolog`: skip up to the restart point, then format records until
      a second buffer is needed; `room` more records fit into the first. */
  function FormatNext(log: seq<Record>, c: Client, room: nat): (c': Client)
    ensures c'.first == c.first && c'.committed == c.committed
    decreases |log| - c.next
  {
    if c.next >= |log| then c.(state := SendExit, queue := c.queue + [Exit])
    else
      var r := log[c.next];
      var d := c.(elapsed := Plus(c.elapsed, r.delay), next := c.next + 1);
      if IsSet(c.restart) && Cmp(c.restart, d.elapsed, Ge) then FormatNext(log, d, room)
      else
        var e := d.(restart := ZERO, queue := d.queue + [Data(r)]);
        if room == 0 then e else FormatNext(log, e, room - 1)
  }

  /** `client_message_completion`, run when the last queued byte is written. */
  function Completion(log: seq<Record>, c: Client, room: nat): Client {
    match c.state
    case SendAccept => FormatNext(log, c.(state := SendIo), room)
    case SendRestart => FormatNext(log, c.(state := SendIo), room)
    case SendIo => FormatNext(log, c, room)
    case SendExit => c.(state := Closing)
    case _ => c
  }

  /** The write callback: the first `count` queued messages are now on the wire. */
  function Send(log: seq<Record>, c: Client, count: nat, room: nat): Client
    requires count <= |c.queue|
  {
    var d := c.(queue := c.queue[count..]);
    if d.queue == [] then Completion(log, d, room) else d
  }

  predicate BeforeIo(s: ClientState) {
    s.RecvHello? || s.SendRestart? || s.SendAccept? || s.Failed?
  }

  /** `handle_server_message` */
  function ClientHears(c: Client, m: ServerMsg): Client {
    match m
    case ServerHello =>
      if !c.state.RecvHello? then c.(state := Failed)
      else if IsSet(c.restart) then c.(state := SendRestart, queue := c.queue + [Restart(c.restart)])
      else c.(state := SendAccept, queue := c.queue + [Accept])
    case LogId => c
    case Commit(p) =>
      var d := if BeforeIo(c.state) then c else c.(committed := p);
      if Cmp(d.elapsed, d.committed, Eq) then d.(state := Finished)
      else if BeforeIo(c.state) then d.(state := Failed) else d
    case Error => c.(state := Failed)
  }

  // ---- the server (logsrvd/logsrvd.c, logsrvd/logsrvd_local.c) ----

  const NEW_SERVER := Server(Initial, Handles(0, map[], ZERO), None, false)

  datatype Heard = Heard(disk: Disk, created: bool, server: Server, reply: seq<ServerMsg>)

  /** `handle_client_message`; storing a record takes two steps. */
  function ServerHears(disk: Disk, created: bool, compressed: bool, v: Server, m: ClientMsg): Heard {
    var refused := Heard(disk, created, v.(state := Refused, commitDue := false), [Error]);
    match m
    case Hello => if v.state.Initial? then Heard(disk, created, v, []) else refused
    case Accept =>
      if v.state.Initial? then
        Heard(StoreAccept().disk, true, v.(state := Running, at := StoreAccept().at), [LogId])
      else if v.state.Running? then Heard(disk, created, v, []) else refused
    case Restart(p) =>
      if !v.state.Initial? then refused
      else (match StoreRestart(disk, p, compressed)
            case None => refused
            case Some(s) => Heard(s.disk, created, v.(state := Running, at := s.at), []))
    case Data(r) =>
      var s := Store(disk, v.at);
      if !v.state.Running? || !Openable(s) then refused
      else var s' := StoreRecordData(s, r); Heard(s'.disk, created, v.(at := s'.at, writing := Some(r)), [])
    case Exit =>
      if !v.state.Running? then refused
      else Heard(disk.(complete := true), created, v.(state := Exited, commitDue := true), [])
  }

  // ---- the system ----

  datatype Step =
    | ConnectFresh
    | ConnectRestart(point: Timespec)
    | ClientSends(count: nat, room: nat)
    | ServerReceives
    | ServerStores
    | ServerCommits
    | ClientReceives
    | Disconnect
    | CrashWriting(written: nat)

  function Connect(s: System, c: Client): System {
    s.(link := Some(Link(c, NEW_SERVER, [], [ServerHello])))
  }

  function ApplyLink(log: seq<Record>, s: System, k: Link, step: Step): System {
    var c, v := k.client, k.server;
    match step
    case ClientSends(count, room) =>
      if 0 < count <= |c.queue| then
        s.(link := Some(k.(client := Send(log, c, count, room), toServer := k.toServer + c.queue[..count])))
      else s
    case ServerReceives =>
      if k.toServer != [] && v.writing.None? && !v.state.Refused? then
        var h := ServerHears(s.disk, s.created, s.compressed, v, k.toServer[0]);
        s.(disk := h.disk, created := h.created,
           link := Some(k.(server := h.server, toServer := k.toServer[1..], toClient := k.toClient + h.reply)))
      else s
    case ServerStores =>
      if v.writing.Some? && Openable(Store(s.disk, v.at)) then
        var t := StoreLine(Store(s.disk, v.at), LineOf(v.writing.value));
        s.(disk := t.disk, link := Some(k.(server := v.(at := t.at, writing := None, commitDue := true))))
      else s
    case ServerCommits =>
      if v.commitDue && v.writing.None? then
        s.(link := Some(k.(server := v.(commitDue := false, state := if v.state.Exited? then Done else v.state),
                           toClient := k.toClient + [Commit(v.at.elapsed)])))
      else s
    case ClientReceives =>
      if k.toClient != [] && !c.state.Finished? && !c.state.Failed? then
        var m := k.toClient[0];
        s.(link := Some(k.(client := ClientHears(c, m), toClient := k.toClient[1..])),
           known := if m.Commit? then s.known + {m.point} else s.known)
      else s
    case CrashWriting(written) =>
      var t := Store(s.disk, v.at);
      if && v.state.Running? && v.writing.None? && k.toServer != [] && Openable(t) && k.toServer[0].Data?
         && k.toServer[0].record.event.IoBuffer? && written <= |k.toServer[0].record.event.data|
      then
        var e := k.toServer[0].record.event;
        s.(disk := StoreData(t, e.fd, e.data[..written]).disk, link := None)
      else s
    case Disconnect => s.(link := None)
    case _ => s
  }

  function Apply(log: seq<Record>, s: System, step: Step): System {
    match s.link
    case Some(k) => ApplyLink(log, s, k, step)
    case None =>
      match step
      case ConnectFresh => if s.created then s else Connect(s, StartClient(log, ZERO).value)
      case ConnectRestart(p) =>
        if p in s.known && IsSet(p) then
          (match StartClient(log, p) case None => s case Some(c) => Connect(s, c))
        else s
      case _ => s
  }

  function Exec(log: seq<Record>, compressed: bool, run: seq<Step>): System {
    if run == [] then System(NO_LOG, false, compressed, None, {})
    else Apply(log, Exec(log, compressed, run[..|run| - 1]), run[|run| - 1])
  }
}
