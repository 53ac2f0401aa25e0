/** The server's side of one connection, with its log files changed in place.
    Each handler does what the session model's steps say. */
module ServerConnections {
  import opened Timespecs
  import opened IoLogs
  import opened Options
  import opened LocalStore
  import opened Session

  class Connection {
    const files: LogFiles
    const compressed: bool
    var created: bool
    var state: ServerState
    var commitDue: bool

    ghost predicate Valid()
      reads this, files
    {
      && (state.Running? || state.Exited? ==> files.Valid())
      && (state.Initial? ==> !commitDue && files.line == 0 && files.positions == map[] && files.elapsed == ZERO)
    }

    /** This connection as the session model sees it, between messages. */
    ghost function View(): Server
      reads this, files
    {
      Server(state, files.State().at, None, commitDue)
    }

    constructor (disk: Disk, created: bool, compressed: bool)
      ensures Valid() && View() == NEW_SERVER && files.State().disk == disk && fresh(files)
      ensures this.created == created && this.compressed == compressed
    {
      files := new LogFiles(disk);
      this.created, this.compressed := created, compressed;
      state, commitDue := Initial, false;
    }

    method Refuse() returns (reply: seq<ServerMsg>)
      modifies this`state, this`commitDue
      ensures state == Refused && !commitDue && reply == [Error]
    {
      state, commitDue := Refused, false;
      reply := [Error];
    }

    /** `handle_client_message` with local storage.  A record takes the two
        steps of the model at once. */
    method Handle(m: ClientMsg) returns (reply: seq<ServerMsg>)
      requires Valid() && !state.Refused?
      requires m.Accept? && state.Initial? ==> files.State().disk == NO_LOG
      requires m.Data? ==> Normal(m.record.delay)
      requires m.Restart? ==> NormalLog(files.timing) && Normal(m.point)
      modifies this, files
      ensures Valid()
      ensures var h := ServerHears(old(files.State().disk), old(created), compressed, old(View()), m);
              && reply == h.reply && created == h.created
              && if h.server.writing.Some?
                 then var t := StoreLine(Store(h.disk, h.server.at), LineOf(m.record));
                      files.State() == t && View() == h.server.(at := t.at, writing := None, commitDue := true)
                 else files.State().disk == h.disk && (!h.server.state.Refused? ==> View() == h.server) && state == h.server.state
    {
      hide StoreRestart, StoreLine, StoreData, Plus;
      reply := [];
      match m {
        case Hello =>
          if !state.Initial? {
            reply := Refuse();
          }
        case Accept =>
          if state.Initial? {
            files.Accept();
            created, state, reply := true, Running, [LogId];
          } else if !state.Running? {
            reply := Refuse();
          }
        case Restart(point) =>
          var ok := false;
          if state.Initial? {
            ok := files.Restart(point, compressed);
          }
          if ok {
            state := Running;
          } else {
            reply := Refuse();
          }
        case Data(r) =>
          if state.Running? {
            StoreIt(r);
          } else {
            reply := Refuse();
          }
        case Exit =>
          if state.Running? {
            files.Exit();
            state, commitDue := Exited, true;
          } else {
            reply := Refuse();
          }
      }
    }

    method StoreIt(r: Record)
      requires files.Valid() && Normal(r.delay)
      modifies this`commitDue, files
      ensures files.Valid() && commitDue && files.State() == StoreRecord(old(files.State()), r)
    {
      match r.event {
        case IoBuffer(fd, data) => files.IoBuffer(fd, r.delay, data);
        case WindowSize(lines, cols) => files.Winsize(r.delay, lines, cols);
        case Suspend(signo) => files.Suspended(r.delay, signo);
      }
      commitDue := true;
    }

    /** `server_commit_cb`: report the elapsed time of what is stored. */
    method CommitCb() returns (point: Timespec)
      requires Valid() && commitDue
      modifies this`state, this`commitDue
      ensures Valid() && point == files.elapsed
      ensures View() == old(View()).(commitDue := false, state := if old(state).Exited? then Done else old(state))
    {
      point := files.elapsed;
      commitDue := false;
      if state.Exited? {
        state := Done;
      }
    }
  }
}
