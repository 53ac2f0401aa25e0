/** One connection of the intercept protocol: a sub-command asks sudo for a
    policy decision over a socket, authenticated by a secret token. */
module Intercept {
  import opened IoLogs
  import opened Options
  import ExecVectors

  const MESSAGE_SIZE_MAX := 2097152

  datatype State =
    | RecvSecret | RecvPolicyCheck | PolicyAccept | PolicyReject | PolicyError
    | RecvHello | RecvHelloInitial | RecvConnection | Closed

  /** Every change of state goes up. */
  function Rank(s: State): nat {
    match s
    case RecvSecret => 0
    case RecvHelloInitial => 0
    case RecvPolicyCheck => 1
    case PolicyAccept => 2
    case PolicyReject => 2
    case PolicyError => 2
    case RecvHello => 3
    case RecvConnection => 3
    case Closed => 4
  }

  datatype Request = PolicyCheck(valid: bool, id: nat) | HelloReq | Unknown

  /** What the world answers during a policy check: whether the directory could
      be entered and the command exists, the plugin's return value and the
      command it substitutes, memory, and the approval plugins. */
  datatype Verdict = Verdict(cwdOk: bool, present: bool, rc: int, command: nat, memoryOk: bool, approved: bool)

  /** A policy check that was made, and for which request. */
  datatype Check = Check(request: Request, verdict: Verdict)

  datatype Response = HelloResp | AcceptResp(command: nat) | RejectResp | ErrorResp

  /** Result of recv(2). */
  datatype Recv = Got(bytes: seq<Byte>) | Eof | Again | Broken

  /** Result of reading the length word: anything but four bytes is fatal. */
  datatype RecvLength = Length(n: nat) | LengthAgain | LengthBroken

  /** Result of send(2). */
  datatype Send = Sent(n: nat) | SendAgain | SendBroken

  /** What the event loop reports, with what the world then answers. */
  datatype Event = Readable(t: Recv, l: RecvLength, b: Recv, v: Verdict, prepared: bool) | Writable(r: Send)

  datatype TokenResult = Matched | Mismatch | Retry | TokenBroken

  /** How far the read callback got with the next request. */
  datatype Reading = Wait | Fail | Ready(request: Request)

  datatype Decision = Decision(state: State, ok: bool)

  /** `intercept_check_policy` */
  function Decide(intercept: bool, v: Verdict): Decision {
    if !v.cwdOk && intercept then Decision(PolicyReject, true)
    else if !v.present then Decision(PolicyError, true)
    else if !intercept then (if v.memoryOk then Decision(PolicyAccept, true) else Decision(PolicyError, false))
    else if v.rc == 1 then
      if !v.memoryOk then Decision(PolicyError, false)
      else if v.approved then Decision(PolicyAccept, true)
      else Decision(PolicyReject, true)
    else if v.rc == 0 then Decision(PolicyReject, true)
    else Decision(PolicyError, false)
  }

  /** Which response a state sends. */
  function ResponseFor(s: State, command: nat): Response {
    match s
    case RecvHelloInitial => HelloResp
    case RecvHello => HelloResp
    case PolicyAccept => AcceptResp(command)
    case PolicyReject => RejectResp
    case _ => ErrorResp
  }

  /** The sequences of responses a client in intercept mode can see. */
  ghost predicate Allowed(rs: seq<Response>) {
    || rs == [] || rs == [HelloResp] || rs == [RejectResp] || rs == [ErrorResp]
    || (|rs| == 1 && rs[0].AcceptResp?) || (|rs| == 2 && rs[0].AcceptResp? && rs[1] == HelloResp)
  }

  /** An accept response is backed by the one check of this connection. */
  ghost predicate Backed(rs: seq<Response>, checks: seq<Check>, tokenOk: bool) {
    forall r :: r in rs && r.AcceptResp? ==>
      && tokenOk && |checks| == 1
      && var v := checks[0].verdict; v.rc == 1 && v.approved && v.cwdOk && v.present && v.command == r.command
  }

  ghost predicate Climbs(before: State, after: State) {
    after == before || Rank(after) > Rank(before)
  }

  /** What has happened on a connection, by the state it is in.  `begun` says
      that the response belonging to the state has been formatted. */
  ghost predicate Story(intercept: bool, s: State, begun: bool, rs: seq<Response>, checks: seq<Check>, tokenOk: bool) {
    match s
    case RecvSecret => !begun && rs == [] && checks == []
    case RecvHelloInitial => checks == [] && rs == if begun then [HelloResp] else []
    case RecvPolicyCheck => !begun && rs == [] && checks == [] && tokenOk
    case PolicyAccept =>
      && tokenOk && |checks| == 1 && intercept && Decide(intercept, checks[0].verdict).state.PolicyAccept?
      && rs == if begun then [AcceptResp(checks[0].verdict.command)] else []
    case PolicyReject =>
      |checks| == 1 && Decide(intercept, checks[0].verdict).state.PolicyReject? && rs == if begun then [RejectResp] else []
    case PolicyError =>
      |checks| == 1 && Decide(intercept, checks[0].verdict).state.PolicyError? && rs == if begun then [ErrorResp] else []
    case RecvHello =>
      && |checks| == 1 && tokenOk
      && (intercept ==> Decide(intercept, checks[0].verdict).state.PolicyAccept?)
      && rs == (if intercept then [AcceptResp(checks[0].verdict.command)] else []) + if begun then [HelloResp] else []
    case RecvConnection => !begun && checks == [] && rs == [HelloResp]
    case Closed => !begun && |checks| <= 1 && Allowed(rs) && (intercept ==> Backed(rs, checks, tokenOk))
  }

  lemma {:induction false} StoryAllowed(intercept: bool, s: State, begun: bool, rs: seq<Response>, checks: seq<Check>, tokenOk: bool)
    requires Story(intercept, s, begun, rs, checks, tokenOk)
    ensures |checks| <= 1 && Allowed(rs) && (intercept ==> Backed(rs, checks, tokenOk))
  {
  }

  lemma {:induction false} StoryCloses(intercept: bool, s: State, begun: bool, rs: seq<Response>, checks: seq<Check>, tokenOk: bool)
    requires Story(intercept, s, begun, rs, checks, tokenOk)
    ensures Story(intercept, Closed, false, rs, checks, tokenOk)
  {
    StoryAllowed(intercept, s, begun, rs, checks, tokenOk);
  }

  /** The response of a state that sends one begins its sending. */
  lemma {:induction false} StoryBegins(intercept: bool, s: State, rs: seq<Response>, checks: seq<Check>, tokenOk: bool, command: nat)
    requires Story(intercept, s, false, rs, checks, tokenOk)
    requires s.PolicyAccept? || s.PolicyReject? || s.PolicyError? || s.RecvHello? || s.RecvHelloInitial?
    requires s.PolicyAccept? && checks != [] ==> command == checks[0].verdict.command
    ensures Story(intercept, s, true, rs + [ResponseFor(s, command)], checks, tokenOk)
  {
  }

  /** Where the connection stays open after its response. */
  lemma {:induction false} StoryGoesOn(intercept: bool, s: State, rs: seq<Response>, checks: seq<Check>, tokenOk: bool)
    requires Story(intercept, s, true, rs, checks, tokenOk)
    ensures s.RecvHelloInitial? ==> Story(intercept, RecvConnection, false, rs, checks, tokenOk)
    ensures s.PolicyAccept? ==> Story(intercept, RecvHello, false, rs, checks, tokenOk)
  {
  }

  type Pack = Response -> seq<Byte>

  /** A response in wire format: its length in host byte order, then the packed
      message. */
  function Wire(pack: Pack, big: bool, r: Response): (w: seq<Byte>)
    ensures |w| == |pack(r)| + 4
  {
    ExecVectors.Enc(big, |pack(r)|, 4) + pack(r)
  }

  function Wires(pack: Pack, big: bool, rs: seq<Response>): seq<Byte> {
    if rs == [] then [] else Wires(pack, big, rs[..|rs| - 1]) + Wire(pack, big, rs[|rs| - 1])
  }

  /** What has been sent of the responses: while one is being sent all earlier
      ones and its first `off` bytes, and else all of them unless the
      connection was closed. */
  ghost predicate OnWire(pack: Pack, big: bool, rs: seq<Response>, begun: bool, closed: bool, buf: seq<Byte>, off: nat, sent: seq<Byte>) {
    if begun then
      && rs != [] && buf == Wire(pack, big, rs[|rs| - 1]) && off <= |buf|
      && sent == Wires(pack, big, rs[..|rs| - 1]) + buf[..off]
    else if closed then sent <= Wires(pack, big, rs)
    else sent == Wires(pack, big, rs)
  }

  lemma {:induction false} OnWirePrefix(pack: Pack, big: bool, rs: seq<Response>, begun: bool, closed: bool, buf: seq<Byte>, off: nat, sent: seq<Byte>)
    requires OnWire(pack, big, rs, begun, closed, buf, off, sent)
    ensures sent <= Wires(pack, big, rs)
    ensures begun && off == |buf| ==> sent == Wires(pack, big, rs)
  {
    if begun {
      assert buf == buf[..off] + buf[off..];
      assert Wires(pack, big, rs) == Wires(pack, big, rs[..|rs| - 1]) + buf;
    }
  }

  lemma {:induction false} OnWireCloses(pack: Pack, big: bool, rs: seq<Response>, begun: bool, closed: bool, buf: seq<Byte>, off: nat, sent: seq<Byte>)
    requires OnWire(pack, big, rs, begun, closed, buf, off, sent)
    ensures OnWire(pack, big, rs, false, true, [], 0, sent)
  {
    OnWirePrefix(pack, big, rs, begun, closed, buf, off, sent);
  }

  lemma {:induction false} OnWireEnds(pack: Pack, big: bool, rs: seq<Response>, buf: seq<Byte>, sent: seq<Byte>)
    requires OnWire(pack, big, rs, true, false, buf, |buf|, sent)
    ensures sent == Wires(pack, big, rs) && OnWire(pack, big, rs, false, false, [], 0, sent)
  {
    OnWirePrefix(pack, big, rs, true, false, buf, |buf|, sent);
  }

  lemma {:induction false} OnWireAdvance(pack: Pack, big: bool, rs: seq<Response>, buf: seq<Byte>, off: nat, n: nat, sent: seq<Byte>)
    requires OnWire(pack, big, rs, true, false, buf, off, sent) && off + n <= |buf|
    ensures OnWire(pack, big, rs, true, false, buf, off + n, sent + buf[off..off + n])
  {
    hide Wires, Wire;
    var done := Wires(pack, big, rs[..|rs| - 1]);
    assert buf[..off + n] == buf[..off] + buf[off..off + n];
    assert done + (buf[..off] + buf[off..off + n]) == (done + buf[..off]) + buf[off..off + n];
  }

  lemma {:induction false} OnWireBegins(pack: Pack, big: bool, rs: seq<Response>, r: Response, sent: seq<Byte>)
    requires OnWire(pack, big, rs, false, false, [], 0, sent)
    ensures OnWire(pack, big, rs + [r], true, false, Wire(pack, big, r), 0, sent)
  {
    hide Wires, Wire;
    assert (rs + [r])[..|rs|] == rs && Wire(pack, big, r)[..0] == [];
    assert Wires(pack, big, rs) + [] == Wires(pack, big, rs);
  }

  /** One turn of sending: the response of the state is formatted if none is
      under way, the bytes that are taken are its next ones, and with the last
      one the state changes; a response that is too large and a broken socket
      close the connection. */
  ghost predicate Sending(pack: Pack, big: bool,
                          s: State, command: nat, buf: seq<Byte>, len: nat, off: nat, rs: seq<Response>, sent: seq<Byte>, r: Send,
                          s': State, command': nat, writing': bool, buf': seq<Byte>, len': nat, off': nat, rs': seq<Response>, sent': seq<Byte>) {
    var resp := ResponseFor(s, command);
    var starts := len == 0;
    var w, at := if starts then Wire(pack, big, resp) else buf, if starts then 0 else off;
    if starts && |pack(resp)| > MESSAGE_SIZE_MAX then s'.Closed? && rs' == rs && sent' == sent
    else
      && rs' == (if starts then rs + [resp] else rs) && at <= |w|
      && if r.SendBroken? then s'.Closed? && sent' == sent
         else
           var n := if r.Sent? then at + r.n else at;
           if r.Sent? && n >= |w| then AfterSending(s, s', writing', len') && sent' == sent + w[at..]
           else s' == s && command' == command && writing' && buf' == w && len' == |w| && off' == n && sent' == sent + w[at..n]
  }

  /** The next n bytes of a response that fits. */
  lemma {:induction false} SendingPiece(pack: Pack, big: bool,
                                        s: State, command: nat, buf: seq<Byte>, len: nat, off: nat, rs: seq<Response>, sent: seq<Byte>,
                                        w: seq<Byte>, at: nat, n: nat,
                                        s': State, command': nat, writing': bool, buf': seq<Byte>, len': nat, off': nat, rs': seq<Response>, sent': seq<Byte>)
    requires Sending(pack, big, s, command, buf, len, off, rs, sent, Sent(n), s', command', writing', buf', len', off', rs', sent')
    requires var resp := ResponseFor(s, command); |pack(resp)| <= MESSAGE_SIZE_MAX && w == Wire(pack, big, resp)
    requires if len == 0 then at == 0 else buf == w && off == at
    requires at + n <= |w|
    ensures sent' == sent + w[at..at + n] && rs' == if len == 0 then rs + [ResponseFor(s, command)] else rs
    ensures if at + n == |w| then AfterSending(s, s', writing', len')
            else s' == s && command' == command && writing' && buf' == w && len' == |w| && off' == at + n
  {
    hide Wire, ResponseFor;
    assert w[at..|w|] == w[at..];
  }

  /** What acting on a request does; a policy check is taken once, a hello where
      one is expected, and nothing else. */
  ghost predicate Handled(intercept: bool, s: State, request: Request, v: Verdict, prepared: bool,
                          ok: bool, s': State, writing: bool, checks: seq<Check>, checks': seq<Check>, command: nat) {
    if request.PolicyCheck? && request.valid && s.RecvPolicyCheck? then
      var d := Decide(intercept, v);
      && checks' == checks + [Check(request, v)] && ok == d.ok
      && (ok && intercept ==> s' == d.state && writing && command == v.command)
      && (ok && !intercept ==> s'.RecvHello? && !writing)
    else if request.HelloReq? && (s.RecvHello? || (s.RecvHelloInitial? && prepared)) then
      ok && s' == s && writing && checks' == checks
    else !ok && checks' == checks
  }

  lemma {:induction false} Trusted(intercept: bool, rs: seq<Response>, checks: seq<Check>, tokenOk: bool)
    requires Story(intercept, RecvSecret, false, rs, checks, tokenOk) && tokenOk
    ensures Story(intercept, RecvPolicyCheck, false, rs, checks, tokenOk)
  {
  }

  /** After a response the first connection listens, one whose command was
      accepted reads on, and any other is closed. */
  predicate AfterSending(before: State, after: State, writing: bool, len: nat) {
    && !writing && len == 0
    && (before.RecvHelloInitial? ==> after.RecvConnection?)
    && (before.PolicyAccept? ==> after.RecvHello?)
    && (!before.RecvHelloInitial? && !before.PolicyAccept? ==> after.Closed?)
  }

  lemma {:induction false} SentNothing(sent: seq<Byte>, buf: seq<Byte>, off: nat)
    requires off <= |buf|
    ensures sent + buf[off..off] == sent && sent + buf[..0] == sent && buf[off..|buf|] == buf[off..]
    ensures off == 0 ==> forall n: nat :: n <= |buf| ==> buf[off..n] == buf[..n]
    ensures buf[..|buf|] == buf
  {
  }

  /** As much of what recv(2) offers as there is room for. */
  function Taken(bytes: seq<Byte>, room: nat): seq<Byte> {
    if |bytes| <= room then bytes else bytes[..room]
  }

  /** What became of a request, of which `had` had come when `len` bytes were
      announced, or no length yet: it is complete once all its bytes are there,
      and nothing is lost before. */
  ghost predicate BodyRead(unpack: seq<Byte> -> Option<Request>, had: seq<Byte>, len: nat, l: RecvLength, b: Recv,
                           res: Reading, has: seq<Byte>, left: nat) {
    if len == 0 && !l.Length? then if l.LengthAgain? then res == Wait && has == had && left == 0 else res == Fail
    else
      var n := if len > 0 then len else l.n;
      var all := had + if n > 0 && b.Got? && |had| <= n then Taken(b.bytes, n - |had|) else [];
      if n > MESSAGE_SIZE_MAX || (n > 0 && (b.Eof? || b.Broken?)) then res == Fail
      else if |all| < n then res == Wait && has == all && left == n
      else if unpack(all).None? then res == Fail
      else res == Ready(unpack(all).value) && has == [] && left == 0
  }

  lemma {:induction false} BodyFailed(unpack: seq<Byte> -> Option<Request>, had: seq<Byte>, len: nat, l: RecvLength, b: Recv,
                                      res: Reading, has: seq<Byte>, left: nat)
    requires BodyRead(unpack, had, len, l, b, res, has, left) && !res.Wait?
    ensures BodyRead(unpack, had, len, l, b, res, [], 0)
  {
  }

  /** The next piece of a body of n bytes. */
  lemma {:induction false} BodyPiece(unpack: seq<Byte> -> Option<Request>, had: seq<Byte>, len: nat, n: nat, piece: seq<Byte>,
                                     res: Reading, has: seq<Byte>, left: nat)
    requires BodyRead(unpack, had, len, Length(n), Got(piece), res, has, left)
    requires 0 < n <= MESSAGE_SIZE_MAX && (len == 0 || len == n) && |had| + |piece| <= n
    ensures |had| + |piece| < n ==> res == Wait && has == had + piece && left == n
    ensures |had| + |piece| == n && unpack(had + piece).Some? ==> res == Ready(unpack(had + piece).value) && has == [] && left == 0
  {
  }

  lemma {:induction false} HandlingFailed(intercept: bool, s: State, request: Request, v: Verdict, prepared: bool,
                                          s': State, writing: bool, checks: seq<Check>, checks': seq<Check>, command: nat)
    requires Handled(intercept, s, request, v, prepared, false, s', writing, checks, checks', command)
    ensures Handled(intercept, s, request, v, prepared, false, Closed, false, checks, checks', command)
  {
  }

  class Connection {
    const intercept: bool
    const secret: seq<Byte>
    const unpack: seq<Byte> -> Option<Request>
    const pack: Pack
    const big: bool
    var state: State
    var writing: bool
    var token: seq<Byte>
    var buf: seq<Byte>
    var len: nat
    var off: nat
    var command: nat
    ghost var responses: seq<Response>
    ghost var checks: seq<Check>
    ghost var tokenOk: bool
    ghost var sent: seq<Byte>

    /** A response is being sent; else the buffer is for reading. */
    ghost predicate Begun()
      reads this
    {
      writing && len > 0
    }

    ghost function Out(): seq<Byte>
      reads this
    {
      if Begun() then buf else []
    }

    ghost function At(): nat
      reads this
    {
      if Begun() then off else 0
    }

    /** What holds even when a callback has failed half way. */
    ghost predicate Closable()
      reads this
    {
      && Story(intercept, state, Begun(), responses, checks, tokenOk)
      && |secret| == 16 && |token| <= 16 && (tokenOk ==> token == secret)
      && OnWire(pack, big, responses, Begun(), state.Closed?, Out(), At(), sent)
    }

    ghost predicate Valid()
      reads this
    {
      && Closable() && (state.RecvSecret? ==> |token| < 16 && len == 0)
      && (state.PolicyAccept? && checks != [] ==> command == checks[0].verdict.command)
      && if writing
         then (state.PolicyAccept? || state.PolicyReject? || state.PolicyError? || state.RecvHello? || state.RecvHelloInitial?)
              && (len == |buf| || len == 0) && off <= len
         else !state.PolicyAccept? && !state.PolicyReject? && !state.PolicyError?
              && off == |buf| <= len <= MESSAGE_SIZE_MAX && (len > 0 ==> off < len)
    }

    /** `intercept_setup` for a socket; a policy check comes first once the
        token has been handed out. */
    constructor (intercept: bool, secret: seq<Byte>, tokenSet: bool,
                 unpack: seq<Byte> -> Option<Request>, pack: Pack, big: bool)
      requires |secret| == 16
      ensures Valid() && !writing && responses == [] && checks == [] && sent == [] && token == [] && len == 0 && buf == []
      ensures state == if tokenSet then RecvSecret else RecvHelloInitial
      ensures this.intercept == intercept && this.secret == secret && this.unpack == unpack && this.pack == pack && this.big == big
    {
      this.intercept, this.secret, this.unpack, this.pack, this.big := intercept, secret, unpack, pack, big;
      state := if tokenSet then RecvSecret else RecvHelloInitial;
      writing, token, buf, len, off, command := false, [], [], 0, 0, 0;
      responses, checks, tokenOk, sent := [], [], false, [];
    }

    /** `intercept_connection_close` */
    method Close()
      requires Closable()
      modifies this
      ensures Valid() && state.Closed? && !writing && len == 0 && buf == [] && responses == old(responses) && sent == old(sent)
      ensures token == old(token) && checks == old(checks) && command == old(command) && tokenOk == old(tokenOk)
    {
      hide Story, OnWire;
      OnWireCloses(pack, big, responses, Begun(), state.Closed?, Out(), At(), sent);
      StoryCloses(intercept, state, Begun(), responses, checks, tokenOk);
      state, writing, buf, len, off := Closed, false, [], 0, 0;
    }

    /** `intercept_verify_token`: the bytes taken are added to the token, and 16
        of them match exactly when they are the secret. */
    method VerifyToken(r: Recv) returns (res: TokenResult)
      requires Closable() && state.RecvSecret? && |token| < 16
      modifies this`token, this`tokenOk
      ensures Closable() && tokenOk == res.Matched?
      ensures token == old(token) + if r.Got? then Taken(r.bytes, 16 - |old(token)|) else []
      ensures res.Matched? <==> r.Got? && token == secret
      ensures res.Retry? <==> r.Again? || (r.Got? && |token| < 16)
      ensures res.TokenBroken? <==> r.Broken?
    {
      tokenOk := false;
      match r {
        case Eof => return Mismatch;
        case Again => return Retry;
        case Broken => return TokenBroken;
        case Got(bytes) =>
          token := token + if |bytes| <= 16 - |token| then bytes else bytes[..16 - |token|];
          if |token| < 16 {
            return Retry;
          }
          tokenOk := token == secret;
          return if token == secret then Matched else Mismatch;
      }
    }

    /** recv(2) has filled the rest of the buffer, or some of it. */
    method Append(bytes: seq<Byte>)
      requires Closable() && !writing && off == |buf| < len
      modifies this`buf, this`off
      ensures Closable() && off == |buf| <= len && buf == old(buf) + Taken(bytes, len - |old(buf)|)
    {
      hide Story, OnWire;
      buf := buf + if |bytes| <= len - off then bytes else bytes[..len - off];
      off := |buf|;
    }

    /** A request is complete when as many bytes have come as its length says;
        it is what those bytes unpack to. */
    method ReceiveBody(l: RecvLength, b: Recv) returns (res: Reading)
      requires Valid() && !writing && !state.RecvSecret?
      modifies this`buf, this`len, this`off
      ensures Closable() && (!res.Fail? ==> Valid()) && (res.Ready? ==> len == 0)
      ensures BodyRead(unpack, old(buf), old(len), l, b, res, buf, len)
    {
      hide Story, OnWire, Taken;
      if len == 0 {
        match l {
          case LengthAgain => return Wait;
          case LengthBroken => return Fail;
          case Length(n) =>
            if n > MESSAGE_SIZE_MAX {
              return Fail;
            }
            len := n;
        }
      }
      if len > 0 {
        match b {
          case Eof => return Fail;
          case Again => return Wait;
          case Broken => return Fail;
          case Got(bytes) => Append(bytes);
        }
        if off != len {
          return Wait;
        }
      }
      var request := unpack(buf);
      if request.None? {
        return Fail;
      }
      buf, len, off := [], 0, 0;
      return Ready(request.value);
    }

    /** The second half of `intercept_read`: act on the request. */
    method HandleRequest(request: Request, v: Verdict, prepared: bool) returns (ok: bool)
      requires Valid() && !writing && len == 0 && !state.RecvSecret? && !state.RecvConnection? && !state.Closed?
      modifies this`state, this`writing, this`command, this`checks
      ensures Handled(intercept, old(state), request, v, prepared, ok, state, writing, old(checks), checks, command)
      ensures Closable() && (ok ==> Valid()) && Climbs(old(state), state) && !state.Closed?
    {
      match request {
        case PolicyCheck(valid, _) =>
          if !state.RecvPolicyCheck? || !valid {
            return false;
          }
          var d := Decide(intercept, v);
          state, checks, command := d.state, checks + [Check(request, v)], v.command;
          if !d.ok {
            return false;
          }
          if !intercept {
            state := RecvHello;
            return true;
          }
        case HelloReq =>
          if !state.RecvHello? && !(state.RecvHelloInitial? && prepared) {
            return false;
          }
        case Unknown => return false;
      }
      writing := true;
      return true;
    }

    /** `intercept_write`: the response is formatted once, its bytes go out in
        order, and with the last one the state changes. */
    method Write(r: Send) returns (ok: bool)
      requires Valid() && writing
      modifies this
      ensures Closable() && (ok ==> Valid()) && (if ok then Climbs(old(state), state) else state == old(state))
      ensures checks == old(checks) && (!ok ==> sent == old(sent))
      ensures var resp := ResponseFor(old(state), old(command));
              && (ok <==> (old(len) > 0 || |pack(resp)| <= MESSAGE_SIZE_MAX) && !r.SendBroken?)
              && responses == if old(len) == 0 && |pack(resp)| <= MESSAGE_SIZE_MAX then old(responses) + [resp] else old(responses)
      ensures ok ==> Sending(pack, big, old(state), old(command), old(buf), old(len), old(off), old(responses), old(sent), r,
                             state, command, writing, buf, len, off, responses, sent)
    {
      hide Story, OnWire, Wires, Wire, ResponseFor;
      if len == 0 {
        ok := Format(ResponseFor(state, command));
        if !ok {
          return false;
        }
      }
      SentNothing(sent, buf, off);
      match r {
        case SendAgain => return true;
        case SendBroken => return false;
        case Sent(n) => Advance(if n <= len - off then n else len - off);
      }
      if off != len {
        return true;
      }
      Finish();
      return true;
    }

    /** send(2) has taken n bytes of the response. */
    method Advance(n: nat)
      requires Valid() && writing && 0 < len && n <= len - off
      modifies this`off, this`sent
      ensures Valid() && off == old(off) + n && sent == old(sent) + buf[old(off)..off]
    {
      hide Story, OnWire;
      OnWireAdvance(pack, big, responses, buf, off, n, sent);
      sent := sent + buf[off..off + n];
      off := off + n;
    }

    /** `fmt_intercept_response`: the length word and the packed message. */
    method Format(resp: Response) returns (ok: bool)
      requires Valid() && writing && len == 0
      requires resp == ResponseFor(state, command)
      modifies this`buf, this`len, this`off, this`responses
      ensures Valid() && responses == if ok then old(responses) + [resp] else old(responses)
      ensures ok == (|pack(resp)| <= MESSAGE_SIZE_MAX)
      ensures ok ==> buf == Wire(pack, big, resp) && len == |buf| && off == 0
      ensures !ok ==> len == 0
    {
      hide Story, OnWire, Wires, ResponseFor;
      var payload := pack(resp);
      if |payload| > MESSAGE_SIZE_MAX {
        return false;
      }
      StoryBegins(intercept, state, responses, checks, tokenOk, command);
      OnWireBegins(pack, big, responses, resp, sent);
      len := |payload| + 4;
      buf := ExecVectors.Enc(big, |payload|, 4) + payload;
      off := 0;
      responses := responses + [resp];
      return true;
    }

    /** The response is sent: read on, listen, or close. */
    method Finish()
      requires Valid() && writing && len > 0 && off == len
      modifies this
      ensures Valid() && Rank(state) > Rank(old(state)) && responses == old(responses) && sent == old(sent) == Wires(pack, big, responses)
      ensures AfterSending(old(state), state, writing, len)
      ensures token == old(token) && checks == old(checks) && command == old(command) && tokenOk == old(tokenOk)
    {
      hide Story, OnWire, Wires;
      StoryGoesOn(intercept, state, responses, checks, tokenOk);
      OnWireEnds(pack, big, responses, buf, sent);
      if state.RecvHelloInitial? {
        buf, len, off, writing, state := [], 0, 0, false, RecvConnection;
      } else if state.PolicyAccept? {
        buf, len, off, writing, state := [], 0, 0, false, RecvHello;
      } else {
        Close();
      }
    }

    /** `intercept_read` */
    method Read(t: Recv, l: RecvLength, b: Recv, v: Verdict, prepared: bool) returns (ok: bool, ghost res: Option<Reading>)
      requires Valid() && !writing && !state.RecvConnection? && !state.Closed?
      modifies this
      ensures Closable() && (ok ==> Valid()) && Climbs(old(state), state) && !state.Closed?
      ensures responses == old(responses) && sent == old(sent)
      ensures token == old(token) + if old(state).RecvSecret? && t.Got? then Taken(t.bytes, 16 - |old(token)|) else []
      ensures res.None? <==> old(state).RecvSecret? && !(t.Got? && token == secret)
      ensures res.None? ==>
                && (ok <==> t.Again? || (t.Got? && |token| < 16)) && state == old(state) && !writing
                && buf == old(buf) && len == old(len) && checks == old(checks)
      ensures res.Some? ==>
                && BodyRead(unpack, old(buf), old(len), l, b, res.value, buf, len)
                && var s := if old(state).RecvSecret? then RecvPolicyCheck else old(state);
                   if res.value.Ready?
                   then Handled(intercept, s, res.value.request, v, prepared, ok, state, writing, old(checks), checks, command)
                   else ok == res.value.Wait? && state == s && !writing && checks == old(checks)
    {
      hide Story, Decide, BodyRead, Handled, OnWire;
      res := None;
      if state.RecvSecret? {
        var r := VerifyToken(t);
        match r {
          case Matched => state := RecvPolicyCheck;
          case Retry => return true, None;
          case _ => return false, None;
        }
        Trusted(intercept, responses, checks, tokenOk);
      }
      var reading := ReceiveBody(l, b);
      res := Some(reading);
      match reading {
        case Wait => return true, res;
        case Fail => return false, res;
        case Ready(request) =>
          ok := HandleRequest(request, v, prepared);
      }
    }

    /** `intercept_cb` for a readable socket: failure closes the connection. */
    method OnReadable(t: Recv, l: RecvLength, b: Recv, v: Verdict, prepared: bool) returns (ghost ok: bool, ghost res: Option<Reading>)
      requires Valid() && !writing && !state.RecvConnection? && !state.Closed?
      modifies this
      ensures Valid() && Climbs(old(state), state) && responses == old(responses) && sent == old(sent)
      ensures ok || (state.Closed? && !writing)
      ensures token == old(token) + if old(state).RecvSecret? && t.Got? then Taken(t.bytes, 16 - |old(token)|) else []
      ensures res.None? <==> old(state).RecvSecret? && !(t.Got? && token == secret)
      ensures res.None? ==>
                && (ok <==> t.Again? || (t.Got? && |token| < 16)) && checks == old(checks) && !writing
                && (ok ==> state == old(state) && buf == old(buf) && len == old(len))
      ensures res.Some? ==>
                && BodyRead(unpack, old(buf), old(len), l, b, res.value, buf, len)
                && var s := if old(state).RecvSecret? then RecvPolicyCheck else old(state);
                   if res.value.Ready?
                   then Handled(intercept, s, res.value.request, v, prepared, ok, state, writing, old(checks), checks, command)
                   else ok == res.value.Wait? && (ok ==> state == s && !writing) && checks == old(checks)
    {
      hide Story, Decide, BodyRead, Handled, OnWire;
      var fine;
      fine, res := Read(t, l, b, v, prepared);
      ok := fine;
      if !fine {
        if res.Some? {
          BodyFailed(unpack, old(buf), old(len), l, b, res.value, buf, len);
          if res.value.Ready? {
            HandlingFailed(intercept, if old(state).RecvSecret? then RecvPolicyCheck else old(state), res.value.request, v, prepared,
                           state, writing, old(checks), checks, command);
          }
        }
        Close();
      }
    }

    /** `intercept_cb` for a writable socket. */
    method OnWritable(r: Send)
      requires Valid() && writing
      modifies this
      ensures Valid() && Climbs(old(state), state) && old(responses) <= responses && checks == old(checks)
      ensures Sending(pack, big, old(state), old(command), old(buf), old(len), old(off), old(responses), old(sent), r,
                      state, command, writing, buf, len, off, responses, sent)
    {
      hide Story, OnWire, Wire, ResponseFor;
      var ok := Write(r);
      if !ok {
        Close();
      }
    }

    /** What the event loop reports is handled if the connection waits for it. */
    method Callback(e: Event)
      requires Valid()
      modifies this
      ensures Valid() && Climbs(old(state), state) && old(responses) <= responses
    {
      hide BodyRead, Handled, Sending, Story, OnWire;
      if e.Writable? && writing {
        OnWritable(e.r);
      } else if e.Readable? && !writing && !state.RecvConnection? && !state.Closed? {
        var _, _ := OnReadable(e.t, e.l, e.b, e.v, e.prepared);
      }
    }

    /** Whatever happens on a connection, its state only climbs, the responses
        stay within the protocol, and in intercept mode an accept response is
        backed by a matching token, a policy that returned 1 and an approval,
        all for the one request of this connection. */
    method Run(events: seq<Event>)
      requires Valid()
      modifies this
      ensures Valid() && Climbs(old(state), state) && old(responses) <= responses
      ensures Allowed(responses) && (intercept ==> Backed(responses, checks, tokenOk))
      ensures (tokenOk ==> token == secret) && sent <= Wires(pack, big, responses)
    {
      hide Valid, Story;
      for i := 0 to |events|
        invariant Valid() && Climbs(old(state), state) && old(responses) <= responses
      {
        Callback(events[i]);
      }
      Proper();
    }

    lemma {:induction false} Proper()
      requires Valid()
      ensures Allowed(responses) && (intercept ==> Backed(responses, checks, tokenOk))
      ensures (tokenOk ==> token == secret) && sent <= Wires(pack, big, responses)
    {
      OnWirePrefix(pack, big, responses, Begun(), state.Closed?, Out(), At(), sent);
      StoryAllowed(intercept, state, Begun(), responses, checks, tokenOk);
    }
  }

  // ---- a conversation ----

  function Joined(pieces: seq<seq<Byte>>): seq<Byte> {
    if pieces == [] then [] else Joined(pieces[..|pieces| - 1]) + pieces[|pieces| - 1]
  }

  ghost predicate Pieces(pieces: seq<seq<Byte>>) {
    forall i :: 0 <= i < |pieces| ==> pieces[i] != []
  }

  lemma {:induction false} JoinedMore(pieces: seq<seq<Byte>>, i: nat)
    requires i < |pieces|
    ensures Joined(pieces[..i + 1]) == Joined(pieces[..i]) + pieces[i]
  {
    assert pieces[..i + 1][..i] == pieces[..i];
  }

  lemma {:induction false} JoinedPrefix(pieces: seq<seq<Byte>>, i: nat)
    requires i <= |pieces|
    ensures Joined(pieces[..i]) <= Joined(pieces)
    ensures i < |pieces| && Pieces(pieces) ==> |Joined(pieces[..i])| < |Joined(pieces)|
    decreases |pieces| - i
  {
    if i < |pieces| {
      JoinedPrefix(pieces, i + 1);
      JoinedMore(pieces, i);
    } else {
      assert pieces[..i] == pieces;
    }
  }

  lemma {:induction false} JoinedNone(pieces: seq<seq<Byte>>)
    ensures Joined(pieces[..0]) == []
  {
  }

  /** One more piece, and whether it is the last. */
  lemma {:induction false} NextPiece(pieces: seq<seq<Byte>>, i: nat, n: nat)
    requires i < |pieces| && Pieces(pieces) && |Joined(pieces)| == n
    ensures var had := Joined(pieces[..i]);
            && |had| < n && |had| + |pieces[i]| <= n && Joined(pieces[..i + 1]) == had + pieces[i] == had + Taken(pieces[i], n - |had|)
            && (i + 1 < |pieces| ==> |Joined(pieces[..i + 1])| < n) && (i + 1 == |pieces| ==> Joined(pieces[..i + 1]) == Joined(pieces))
  {
    JoinedPrefix(pieces, i);
    JoinedPrefix(pieces, i + 1);
    JoinedMore(pieces, i);
    assert i + 1 == |pieces| ==> pieces[..i + 1] == pieces;
  }

  /** Nothing has happened yet on this connection. */
  ghost predicate New(c: Connection)
    reads c
  {
    c.Valid() && !c.writing && c.token == [] && c.checks == [] && c.responses == [] && c.sent == [] && c.len == 0 && c.buf == []
  }

  /** Sixteen bytes in any pieces: they open the connection for a policy check
      if and only if they are the secret, and else it is closed. */
  method SendToken(c: Connection, pieces: seq<seq<Byte>>, v: Verdict)
    requires New(c) && c.state.RecvSecret? && Pieces(pieces) && |Joined(pieces)| == 16
    modifies c
    ensures c.Valid() && !c.writing && c.checks == [] && c.responses == [] && c.sent == []
    ensures if Joined(pieces) == c.secret then c.state.RecvPolicyCheck? && c.len == 0 && c.buf == [] else c.state.Closed?
  {
    var i := 0;
    while i < |pieces|
      invariant i <= |pieces| && c.Valid() && !c.writing && c.checks == [] && c.responses == [] && c.sent == []
      invariant if i < |pieces| then c.state.RecvSecret? && c.token == Joined(pieces[..i]) && c.len == 0 && c.buf == []
                else if Joined(pieces) == c.secret then c.state.RecvPolicyCheck? && c.len == 0 && c.buf == [] else c.state.Closed?
    {
      hide Joined, Connection.Valid;
      NextPiece(pieces, i, 16);
      ghost var ok, res;
      ok, res := c.OnReadable(Got(pieces[i]), LengthAgain, Again, v, false);
      i := i + 1;
    }
  }

  /** A request in any pieces, with its length in front, is acted on when its last
      byte has come. */
  method SendRequest(c: Connection, pieces: seq<seq<Byte>>, request: Request, v: Verdict, prepared: bool)
    returns (ghost ok: bool)
    requires c.Valid() && !c.writing && c.len == 0 && c.buf == []
    requires c.state.RecvPolicyCheck? || c.state.RecvHello? || c.state.RecvHelloInitial?
    requires Pieces(pieces) && pieces != [] && |Joined(pieces)| <= MESSAGE_SIZE_MAX && c.unpack(Joined(pieces)) == Some(request)
    modifies c
    ensures c.Valid() && c.responses == old(c.responses) && c.sent == old(c.sent) && c.len == 0 && c.buf == []
    ensures ok || (c.state.Closed? && !c.writing)
    ensures Handled(c.intercept, old(c.state), request, v, prepared, ok, c.state, c.writing, old(c.checks), c.checks, c.command)
  {
    hide Joined, Handled, BodyRead, Connection.Valid;
    ghost var body := Joined(pieces);
    NextPiece(pieces, 0, |body|);
    NextPiece(pieces, |pieces| - 1, |body|);
    JoinedNone(pieces);
    var i := 0;
    while i < |pieces| - 1
      invariant i <= |pieces| - 1 && c.Valid() && !c.writing && c.state == old(c.state)
      invariant c.responses == old(c.responses) && c.sent == old(c.sent) && c.checks == old(c.checks)
      invariant c.buf == Joined(pieces[..i]) && c.len == if i == 0 then 0 else |body|
    {
      NextPiece(pieces, i, |body|);
      ghost var _, res := c.OnReadable(Again, Length(|Joined(pieces)|), Got(pieces[i]), v, prepared);
      BodyPiece(c.unpack, Joined(pieces[..i]), if i == 0 then 0 else |body|, |body|, pieces[i], res.value, c.buf, c.len);
      i := i + 1;
    }
    ghost var res;
    ok, res := c.OnReadable(Again, Length(|Joined(pieces)|), Got(pieces[i]), v, prepared);
    BodyPiece(c.unpack, Joined(pieces[..i]), if i == 0 then 0 else |body|, |body|, pieces[i], res.value, c.buf, c.len);
  }

  /** The response of the state goes out in any pieces. */
  method Deliver(c: Connection, pieces: seq<seq<Byte>>)
    requires c.Valid() && c.writing && c.len == 0 && Pieces(pieces)
    requires var resp := ResponseFor(c.state, c.command); |c.pack(resp)| <= MESSAGE_SIZE_MAX && Joined(pieces) == Wire(c.pack, c.big, resp)
    modifies c
    ensures c.Valid() && c.checks == old(c.checks) && AfterSending(old(c.state), c.state, c.writing, c.len)
    ensures c.responses == old(c.responses) + [ResponseFor(old(c.state), old(c.command))]
    ensures c.sent == old(c.sent) + Joined(pieces)
  {
    hide Joined, Wire, Sending, Connection.Valid;
    ghost var resp := ResponseFor(c.state, c.command);
    ghost var w := Wire(c.pack, c.big, resp);
    JoinedNone(pieces);
    var i := 0;
    while i < |pieces|
      invariant i <= |pieces| && c.Valid() && c.checks == old(c.checks)
      invariant c.responses == old(c.responses) + if i == 0 then [] else [resp]
      invariant c.sent == old(c.sent) + Joined(pieces[..i])
      invariant if i < |pieces| then
                  && c.state == old(c.state) && c.command == old(c.command) && c.writing
                  && if i == 0 then c.len == 0 else c.buf == w && c.len == |w| && c.off == |Joined(pieces[..i])|
                else AfterSending(old(c.state), c.state, c.writing, c.len)
    {
      NextPiece(pieces, i, |w|);
      label before:
      c.OnWritable(Sent(|pieces[i]|));
      SendingPiece(c.pack, c.big, old@before(c.state), old@before(c.command), old@before(c.buf), old@before(c.len), old@before(c.off),
                   old@before(c.responses), old@before(c.sent), w, |Joined(pieces[..i])|, |pieces[i]|,
                   c.state, c.command, c.writing, c.buf, c.len, c.off, c.responses, c.sent);
      JoinedPrefix(pieces, i + 1);
      i := i + 1;
    }
    assert pieces[..i] == pieces;
  }

  /** What a client that asks about a command is told: a rejection when the
      directory cannot be entered, an error when there is no such command, the
      policy's decision with the approval plugins' consent, and nothing when the
      plugin fails or memory runs out. */
  function Answer(v: Verdict): seq<Response> {
    if !v.cwdOk then [RejectResp]
    else if !v.present then [ErrorResp]
    else if v.rc == 1 && v.memoryOk then (if v.approved then [AcceptResp(v.command)] else [RejectResp])
    else if v.rc == 0 then [RejectResp]
    else []
  }

  /** The pieces in which a sequence of at most one response goes out. */
  ghost predicate Outgoing(pack: Pack, big: bool, rs: seq<Response>, pieces: seq<seq<Byte>>) {
    && Pieces(pieces) && Joined(pieces) == Wires(pack, big, rs)
    && forall r :: r in rs ==> |pack(r)| <= MESSAGE_SIZE_MAX
  }

  lemma {:induction false} WiresOne(pack: Pack, big: bool, r: Response)
    ensures Wires(pack, big, []) == [] && Wires(pack, big, [r]) == Wire(pack, big, r)
  {
    assert [r][..0] == [];
  }

  /** How a connection stands after a request for a policy decision. */
  lemma {:induction false} AnswerPending(v: Verdict, request: Request, ok: bool, s: State, writing: bool, checks: seq<Check>, command: nat)
    requires Handled(true, RecvPolicyCheck, request, v, false, ok, s, writing, [], checks, command)
    requires request.PolicyCheck? && request.valid
    ensures checks == [Check(request, v)] && ok == (Answer(v) != [])
    ensures ok ==> writing && Answer(v) == [ResponseFor(s, command)] && !s.RecvHelloInitial? && (s.PolicyAccept? <==> Answer(v)[0].AcceptResp?)
  {
  }

  /** A sub-command in intercept mode, from the new connection to the answer:
      the secret, the request and the answer go over the socket in any pieces. */
  method AskPolicy(secret: seq<Byte>, unpack: seq<Byte> -> Option<Request>, pack: Pack, big: bool,
                   token: seq<seq<Byte>>, body: seq<seq<Byte>>, request: Request, v: Verdict, out: seq<seq<Byte>>)
    returns (c: Connection)
    requires |secret| == 16 && Pieces(token) && |Joined(token)| == 16
    requires Pieces(body) && body != [] && |Joined(body)| <= MESSAGE_SIZE_MAX && unpack(Joined(body)) == Some(request)
    requires request.PolicyCheck? && request.valid && Outgoing(pack, big, Answer(v), out)
    ensures fresh(c) && c.Valid() && !c.writing
    ensures if Joined(token) != secret
            then c.state.Closed? && c.checks == [] && c.responses == [] && c.sent == []
            else
              && c.checks == [Check(request, v)] && c.responses == Answer(v) && c.sent == Wires(pack, big, Answer(v))
              && c.state == if Answer(v) == [AcceptResp(v.command)] then RecvHello else Closed
  {
    hide Joined, Wires, Wire, Handled, Connection.Valid, Pieces;
    c := new Connection(true, secret, true, unpack, pack, big);
    SendToken(c, token, v);
    if !c.state.RecvPolicyCheck? {
      return;
    }
    ghost var ok := SendRequest(c, body, request, v, false);
    AnswerPending(v, request, ok, c.state, c.writing, c.checks, c.command);
    WiresOne(pack, big, ResponseFor(c.state, c.command));
    if c.writing {
      Deliver(c, out);
    }
  }

  /** The first connection: hello, the token is handed out, and the socket
      listens. */
  method SayHello(intercept: bool, secret: seq<Byte>, unpack: seq<Byte> -> Option<Request>, pack: Pack, big: bool,
                  body: seq<seq<Byte>>, v: Verdict, prepared: bool, out: seq<seq<Byte>>)
    returns (c: Connection)
    requires |secret| == 16
    requires Pieces(body) && body != [] && |Joined(body)| <= MESSAGE_SIZE_MAX && unpack(Joined(body)) == Some(HelloReq)
    requires Outgoing(pack, big, [HelloResp], out)
    ensures fresh(c) && c.Valid() && !c.writing && c.checks == []
    ensures if prepared then c.state.RecvConnection? && c.responses == [HelloResp] && c.sent == Wires(pack, big, [HelloResp])
            else c.state.Closed? && c.responses == [] && c.sent == []
  {
    hide Joined, Wires, Wire, Connection.Valid, Pieces;
    c := new Connection(intercept, secret, false, unpack, pack, big);
    ghost var _ := SendRequest(c, body, HelloReq, v, prepared);
    if c.writing {
      WiresOne(pack, big, HelloResp);
      Deliver(c, out);
    }
  }

  /** Where sudo only logs sub-commands, a policy check has no answer: the client
      says hello next, and is told hello. */
  method AskLogger(secret: seq<Byte>, unpack: seq<Byte> -> Option<Request>, pack: Pack, big: bool,
                   token: seq<seq<Byte>>, body: seq<seq<Byte>>, request: Request, v: Verdict, hello: seq<seq<Byte>>, out: seq<seq<Byte>>)
    returns (c: Connection)
    requires |secret| == 16 && Pieces(token) && Joined(token) == secret
    requires Pieces(body) && body != [] && |Joined(body)| <= MESSAGE_SIZE_MAX && unpack(Joined(body)) == Some(request)
    requires Pieces(hello) && hello != [] && |Joined(hello)| <= MESSAGE_SIZE_MAX && unpack(Joined(hello)) == Some(HelloReq)
    requires request.PolicyCheck? && request.valid && Outgoing(pack, big, [HelloResp], out)
    ensures fresh(c) && c.Valid() && !c.writing && c.checks == [Check(request, v)] && c.state.Closed?
    ensures if v.present && !v.memoryOk then c.responses == [] && c.sent == []
            else c.responses == [HelloResp] && c.sent == Wires(pack, big, [HelloResp])
  {
    hide Joined, Wires, Wire, Connection.Valid, Pieces;
    c := new Connection(false, secret, true, unpack, pack, big);
    SendToken(c, token, v);
    ghost var ok := SendRequest(c, body, request, v, false);
    if c.state.Closed? {
      return;
    }
    ok := SendRequest(c, hello, HelloReq, v, false);
    WiresOne(pack, big, HelloResp);
    Deliver(c, out);
  }
}
