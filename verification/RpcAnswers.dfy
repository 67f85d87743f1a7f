/** Whose request a received line settles, with what, and where every settlement of a run comes from. */
module RpcAnswers {
  import opened JsStrings
  import opened Wrappers
  import opened RpcClient
  import opened RpcCuts

  // ---- one line ----

  /** A chunk that completes the line in the buffer. */
  ghost predicate Completes(c: Client, chunk: JsString, socket: nat, line: JsString) {
    && Open(c, socket) && IndexOfNewline(c.receiveBuffer) < 0
    && chunk != [] && chunk[|chunk| - 1] == NEWLINE && NEWLINE !in chunk[..|chunk| - 1]
    && line == StripReturn(c.receiveBuffer + chunk[..|chunk| - 1]) && !Blank(line)
    && Bytes(c.receiveBuffer + chunk) <= MAX_FRAME_BYTES
  }

  /** Nothing changes but what is named. */
  predicate Same(c: Client, d: Client, pending: seq<Pending>, timers: set<nat>, settled: seq<Settlement>) {
    && d.pending == pending && d.timers == timers && d.settled == settled && d.receiveBuffer == []
    && d.nextRequestId == c.nextRequestId && d.socket == c.socket && d.sockets == c.sockets && d.destroyed == c.destroyed
    && d.initialized == c.initialized && d.disposed == c.disposed && d.delivered == c.delivered && d.answered == c.answered
  }

  /** All that was pending is rejected in order, and the socket destroyed. */
  predicate AllRejected(c: Client, d: Client, kind: ErrorKind, socket: nat) {
    && d.pending == [] && d.timers == {} && d.destroyed == c.destroyed + {socket} && d.socket == c.socket
    && |d.settled| == |c.settled| + |c.pending| && d.settled[..|c.settled|] == c.settled
    && (forall i :: 0 <= i < |c.pending| ==> d.settled[|c.settled| + i] == Settlement(c.pending[i].id, Rejected(kind)))
    && d.delivered == c.delivered && d.answered == c.answered && d.nextRequestId == c.nextRequestId
  }

  lemma OneFrame(c: Client, chunk: JsString, socket: nat, line: JsString)
    requires Completes(c, chunk, socket, line)
    ensures var s := c.receiveBuffer + chunk;
            IndexOfNewline(s) == |s| - 1 && StripReturn(s[..|s| - 1]) == line && s[|s|..] == []
  {
    var s := c.receiveBuffer + chunk;
    assert s[..|s| - 1] == c.receiveBuffer + chunk[..|chunk| - 1];
    assert s[|s| - 1] == NEWLINE;
    FirstNewline(s, |s| - 1);
  }

  /** The line goes to the handler, and the buffer is empty after it. */
  lemma LineReachesHandler(env: Env, c: Client, chunk: JsString, socket: nat, line: JsString)
    requires Completes(c, chunk, socket, line)
    ensures Data(env, c, chunk, socket)
            == if env.decode(line).NotJson? then FailConnection(WithBuffer(c, []), Protocol, socket)
               else WithBuffer(HandleMessage(env, WithBuffer(c, []), env.decode(line), socket), [])
  {
    OneFrame(c, chunk, socket, line);
    var s := c.receiveBuffer + chunk;
    var filled := WithBuffer(c, s);
    hide Drain, HandleMessage, FailConnection, Blank, StripReturn, Utf8;
    BufferTwice(c, s, []);
    DrainNext(env, filled, socket);
    var handled := WithBuffer(HandleMessage(env, WithBuffer(c, []), env.decode(line), socket), []);
    EmptyBuffer();
    BufferTwice(HandleMessage(env, WithBuffer(c, []), env.decode(line), socket), [], []);
    DrainNext(env, handled, socket);
  }

  lemma EmptyBuffer()
    ensures IndexOfNewline([]) < 0
  {
  }

  /** The place of a pending request is unique in a reachable state. */
  lemma OnePlace(c: Client, k: nat, j: nat)
    requires Accounted(c) && k < |c.pending| && j < |c.pending| && c.pending[k].id == c.pending[j].id
    ensures k == j
  {
    if k != j {
      var ids := PendingIds(c.pending);
      var id := ids[k];
      assert ids[j] == id;
      IssuedOnce(c.nextRequestId, id);
      var s, p := multiset(SettledIds(c.settled)), multiset(ids);
      assert (s + p)[id] == s[id] + p[id];
      TwicePresent(ids, if k < j then k else j, if k < j then j else k);
    }
  }

  lemma TwicePresent(ids: seq<nat>, k: nat, j: nat)
    requires k < j < |ids| && ids[k] == ids[j]
    ensures multiset(ids)[ids[k]] >= 2
  {
    assert ids == ids[..k] + [ids[k]] + ids[k + 1..j] + [ids[j]] + ids[j + 1..];
  }

  lemma {:induction false} WithoutAt(ps: seq<Pending>, k: nat)
    requires k < |ps| && forall j :: 0 <= j < |ps| && j != k ==> ps[j].id != ps[k].id
    ensures Without(ps, ps[k].id) == ps[..k] + ps[k + 1..]
    decreases |ps|
  {
    var rest, id := ps[1..], ps[k].id;
    assert forall j :: 0 <= j < |rest| ==> rest[j] == ps[j + 1];
    if k == 0 {
      WithoutNone(rest, id);
      assert ps[..0] + ps[1..] == rest;
    } else {
      WithoutAt(rest, k - 1);
      assert [ps[0]] + (rest[..k - 1] + rest[k..]) == ps[..k] + ps[k + 1..];
    }
  }

  lemma {:induction false} WithoutNone(ps: seq<Pending>, id: nat)
    requires forall j :: 0 <= j < |ps| ==> ps[j].id != id
    ensures Without(ps, id) == ps
    decreases |ps|
  {
    if ps != [] {
      WithoutNone(ps[1..], id);
      assert ps == [ps[0]] + ps[1..];
    }
  }

  /** In a reachable state settling the k-th pending request takes out that one and leaves the others in order. */
  lemma SettleAt(c: Client, k: nat, outcome: Outcome)
    requires Accounted(c) && k < |c.pending|
    ensures Find(c.pending, c.pending[k].id).Some?
    ensures Settle(c, c.pending[k].id, outcome).pending == c.pending[..k] + c.pending[k + 1..]
  {
    forall j | 0 <= j < |c.pending| && j != k ensures c.pending[j].id != c.pending[k].id {
      if c.pending[j].id == c.pending[k].id { OnePlace(c, k, j); }
    }
    WithoutAt(c.pending, k);
  }

  /** A result settles the pending request with its id, with that result, and no other. */
  lemma ResultSettles(env: Env, es: seq<Event>, chunk: JsString, socket: nat, line: JsString, k: nat, result: JsString)
    requires var c := After(env, NEW_CLIENT, es);
             Completes(c, chunk, socket, line) && k < |c.pending| && env.decode(line) == Result(Some(Number(c.pending[k].id)), result)
    ensures var c := After(env, NEW_CLIENT, es);
            Same(c, Data(env, c, chunk, socket), c.pending[..k] + c.pending[k + 1..], c.timers - {c.pending[k].id},
                 c.settled + [Settlement(c.pending[k].id, Resolved(result))])
  {
    hide After, Accounted, Find, Without, Completes, Data;
    var c := After(env, NEW_CLIENT, es);
    RunAccounted(env, es);
    LineReachesHandler(env, c, chunk, socket, line);
    SettleAt(c, k, Resolved(result));
  }

  /** What an error of the server means for the request it names. */
  predicate MeansKind(code: int, mentionsTurn: bool, kind: ErrorKind) {
    if code == -32601 then kind == SchemaDrift
    else if code == -32602 || mentionsTurn then kind == TurnMismatch
    else kind == Rpc
  }

  /** An error settles the pending request with its id, with the kind its code means, and no other. */
  lemma ErrorSettles(env: Env, es: seq<Event>, chunk: JsString, socket: nat, line: JsString, k: nat, code: int, mentionsTurn: bool,
                     kind: ErrorKind)
    requires var c := After(env, NEW_CLIENT, es);
             Completes(c, chunk, socket, line) && k < |c.pending|
             && env.decode(line) == Error(Some(Number(c.pending[k].id)), code, mentionsTurn)
    requires MeansKind(code, mentionsTurn, kind)
    ensures var c := After(env, NEW_CLIENT, es);
            Same(c, Data(env, c, chunk, socket), c.pending[..k] + c.pending[k + 1..], c.timers - {c.pending[k].id},
                 c.settled + [Settlement(c.pending[k].id, Rejected(kind))])
  {
    hide After, Accounted, Find, Without, Completes, Data;
    var c := After(env, NEW_CLIENT, es);
    RunAccounted(env, es);
    LineReachesHandler(env, c, chunk, socket, line);
    SettleAt(c, k, Rejected(kind));
  }

  /** The id a response names, unless it is null, a string, a fraction or negative. */
  function NamedId(m: Message): Option<nat> {
    match m
    case Result(Some(Number(n)), _) => if n >= 0 then Some(n) else None
    case Error(Some(Number(n)), _, _) => if n >= 0 then Some(n) else None
    case _ => None
  }

  /** A response that names no pending request changes nothing. */
  lemma StrangerIgnored(env: Env, c: Client, chunk: JsString, socket: nat, line: JsString)
    requires Completes(c, chunk, socket, line) && (env.decode(line).Result? || env.decode(line).Error?)
    requires var id := NamedId(env.decode(line)); id.None? || forall i :: 0 <= i < |c.pending| ==> c.pending[i].id != id.value
    ensures Same(c, Data(env, c, chunk, socket), c.pending, c.timers, c.settled)
  {
    hide Completes, Data, Find;
    LineReachesHandler(env, c, chunk, socket, line);
  }

  /** Notifications are delivered, server requests answered, and nothing else changes; what has the wrong shape, is not
      JSON, or is a request that cannot be answered rejects everything pending and destroys the socket. */
  lemma OtherLines(env: Env, c: Client, chunk: JsString, socket: nat, line: JsString)
    requires Completes(c, chunk, socket, line)
    ensures var d := Data(env, c, chunk, socket);
            match env.decode(line)
            case Notification(text) => d == WithBuffer(c, []).(delivered := c.delivered + [text])
            case ServerRequest(id) =>
              if env.answers then d == WithBuffer(c, []).(answered := c.answered + [id])
              else TimersPending(c) ==> AllRejected(c, d, Endpoint, socket)
            case Malformed => TimersPending(c) ==> AllRejected(c, d, Protocol, socket)
            case NotJson => TimersPending(c) ==> AllRejected(c, d, Protocol, socket)
            case _ => true
  {
    OpenSocket(c, socket) by { assert Open(c, socket); }
    hide Completes, Data, FailConnection, RejectPending, AllRejected, TimersPending;
    LineReachesHandler(env, c, chunk, socket, line);
    FailureRejects(c, Protocol, socket);
    FailureRejects(c, Endpoint, socket);
  }

  predicate TimersPending(c: Client) { forall t :: t in c.timers ==> t in PendingIds(c.pending) }

  lemma FailRejects(c: Client, kind: ErrorKind, socket: nat)
    requires c.socket == Some(socket)
    ensures TimersPending(c) ==> AllRejected(c, FailConnection(c, kind, socket), kind, socket)
  {
    var d := FailConnection(c, kind, socket);
    if TimersPending(c) {
      forall t | t in c.timers ensures t in set p | p in c.pending :: p.id {
        var i :| 0 <= i < |c.pending| && PendingIds(c.pending)[i] == t;
        assert c.pending[i] in c.pending;
      }
      assert d.timers == {};
    }
  }

  lemma FailureRejects(c: Client, kind: ErrorKind, socket: nat)
    requires c.socket == Some(socket)
    ensures TimersPending(c) ==>
              && AllRejected(c, FailConnection(WithBuffer(c, []), kind, socket), kind, socket)
              && AllRejected(c, WithBuffer(FailConnection(WithBuffer(c, []), kind, socket), []), kind, socket)
  {
    hide FailConnection;
    FailRejects(WithBuffer(c, []), kind, socket);
    BufferAside(c, FailConnection(WithBuffer(c, []), kind, socket), kind, socket);
  }

  lemma BufferAside(c: Client, d: Client, kind: ErrorKind, socket: nat)
    ensures TimersPending(WithBuffer(c, [])) <==> TimersPending(c)
    ensures AllRejected(WithBuffer(c, []), d, kind, socket) ==> AllRejected(c, d, kind, socket) && AllRejected(c, WithBuffer(d, []), kind, socket)
  {
  }

  // ---- where settlements come from ----

  /** The line names the request and carries the outcome. */
  predicate Carries(env: Env, line: JsString, s: Settlement) {
    match env.decode(line)
    case Result(id, result) => id == Some(Number(s.id)) && s.outcome == Resolved(result)
    case Error(id, code, mentionsTurn) => id == Some(Number(s.id)) && s.outcome.Rejected? && MeansKind(code, mentionsTurn, s.outcome.kind)
    case _ => false
  }

  predicate FailsAll(o: Outcome) { o == Rejected(Protocol) || o == Rejected(Endpoint) }

  /** The event of a run that settled a request. */
  ghost predicate Caused(env: Env, c: Client, e: Event, s: Settlement) {
    match e
    case Receives(chunk, _) =>
      FailsAll(s.outcome) || exists line :: line in Frames(c.receiveBuffer + chunk) && Carries(env, line, s)
    case TimerFires(id) => s == Settlement(id, Rejected(Timeout))
    case Requests(_, endpointOk, writeOk) =>
      (s.outcome == Rejected(WriteError) && !writeOk && s.id == c.nextRequestId) || (s.outcome == Rejected(Endpoint) && !endpointOk)
    case Connects => false
    case ConnectFails(_) => false
    case _ => s.outcome == Rejected(Connection)
  }

  lemma RejectCauses(c: Client, kind: ErrorKind, s: Settlement)
    requires s in RejectPending(c, kind).settled
    ensures s in c.settled || s.outcome == Rejected(kind)
  {
  }

  lemma FailCauses(c: Client, kind: ErrorKind, socket: nat, s: Settlement)
    requires s in FailConnection(c, kind, socket).settled
    ensures s in c.settled || s.outcome == Rejected(kind)
  {
  }

  lemma HandleCauses(env: Env, c: Client, line: JsString, socket: nat, s: Settlement)
    requires s in HandleMessage(env, c, env.decode(line), socket).settled
    ensures s in c.settled || FailsAll(s.outcome) || Carries(env, line, s)
  {
    hide FailConnection, Find, Without;
    if s in FailConnection(c, Protocol, socket).settled { FailCauses(c, Protocol, socket, s); }
    if s in FailConnection(c, Endpoint, socket).settled { FailCauses(c, Endpoint, socket, s); }
  }

  lemma {:induction false} DrainCauses(env: Env, c: Client, socket: nat, s: Settlement)
    requires s in Drain(env, c, socket).settled
    ensures s in c.settled || FailsAll(s.outcome) || exists line :: line in Frames(c.receiveBuffer) && Carries(env, line, s)
    decreases |c.receiveBuffer|
  {
    hide Drain, HandleMessage, FailConnection, Blank, StripReturn, Frames, Carries;
    DrainNext(env, c, socket);
    FramesNext(c.receiveBuffer);
    var i := IndexOfNewline(c.receiveBuffer);
    if i >= 0 {
      var line, next := StripReturn(c.receiveBuffer[..i]), WithBuffer(c, c.receiveBuffer[i + 1..]);
      var later := Frames(next.receiveBuffer);
      if Blank(line) {
        DrainCauses(env, next, socket, s);
        assert Frames(c.receiveBuffer) == later;
      } else {
        assert Frames(c.receiveBuffer) == [line] + later;
        if env.decode(line).NotJson? {
          FailCauses(next, Protocol, socket, s);
        } else {
          var handled := HandleMessage(env, next, env.decode(line), socket);
          DrainCauses(env, WithBuffer(handled, next.receiveBuffer), socket, s);
          if s in handled.settled { HandleCauses(env, next, line, socket, s); }
        }
      }
    }
  }

  lemma NextCauses(env: Env, c: Client, e: Event, s: Settlement)
    requires s in Next(env, c, e).settled && s !in c.settled
    ensures Caused(env, c, e, s)
  {
    hide Drain, RejectPending, FailConnection, Without, Carries, Frames, Utf8;
    match e {
      case Receives(chunk, socket) =>
        var filled := WithBuffer(c, c.receiveBuffer + chunk);
        if s in FailConnection(filled, Protocol, socket).settled { FailCauses(filled, Protocol, socket, s); }
        if s in Drain(env, filled, socket).settled { DrainCauses(env, filled, socket, s); }
      case SocketErrors(socket) => FailCauses(c, Connection, socket, s);
      case SocketCloses(socket) =>
        var open := c.(socket := None, initialized := false);
        if s in RejectPending(open, Connection).settled { RejectCauses(open, Connection, s); }
      case Closes => ClosedCauses(c, s);
      case Disposes => ClosedCauses(c.(disposed := true), s);
      case Requests(methodName, endpointOk, writeOk) => RequestCauses(c, methodName, endpointOk, writeOk, s);
      case TimerFires(id) =>
      case Connects =>
      case ConnectFails(socket) =>
    }
  }

  lemma ClosedCauses(c: Client, s: Settlement)
    requires s in Closed(c).settled
    ensures s in c.settled || s.outcome == Rejected(Connection)
  {
    hide RejectPending;
    RejectCauses(c.(socket := None, initialized := false), Connection, s);
  }

  lemma RequestCauses(c: Client, methodName: JsString, endpointOk: bool, writeOk: bool, s: Settlement)
    requires s in Request(c, methodName, endpointOk, writeOk).client.settled && s !in c.settled
    ensures (s.outcome == Rejected(WriteError) && !writeOk && s.id == c.nextRequestId) || (s.outcome == Rejected(Endpoint) && !endpointOk)
  {
    hide FailConnection, Without;
    if c.socket.Some? && s in FailConnection(c, Endpoint, c.socket.value).settled { FailCauses(c, Endpoint, c.socket.value, s); }
  }

  /** Every settlement of a run was caused by one of its events: a result by a received line that names the request and
      carries that result, an error by such a line or by what its kind says. */
  lemma {:induction false} SettlementsAreCaused(env: Env, es: seq<Event>, s: Settlement) returns (k: nat)
    requires s in After(env, NEW_CLIENT, es).settled
    ensures k < |es| && Caused(env, After(env, NEW_CLIENT, es[..k]), es[k], s)
    decreases |es|
  {
    hide Next, Caused;
    if es == [] {
      NothingSettled(env, s);
      assert false;
    }
    var init := es[..|es| - 1];
    if s in After(env, NEW_CLIENT, init).settled {
      k := SettlementsAreCaused(env, init, s);
      assert init[..k] == es[..k];
    } else {
      k := |es| - 1;
      NextCauses(env, After(env, NEW_CLIENT, init), es[k], s);
    }
  }

  lemma NothingSettled(env: Env, s: Settlement)
    ensures s !in After(env, NEW_CLIENT, []).settled
  {
  }

  /** A request that was resolved was resolved with the result of a received line that names it. */
  lemma ResolvedByItsLine(env: Env, es: seq<Event>, id: nat, result: JsString) returns (k: nat, line: JsString)
    requires Settlement(id, Resolved(result)) in After(env, NEW_CLIENT, es).settled
    ensures k < |es| && es[k].Receives? && line in Frames(After(env, NEW_CLIENT, es[..k]).receiveBuffer + es[k].chunk)
    ensures env.decode(line) == Result(Some(Number(id)), result)
  {
    hide After, Frames;
    var s := Settlement(id, Resolved(result));
    k := SettlementsAreCaused(env, es, s);
    line :| line in Frames(After(env, NEW_CLIENT, es[..k]).receiveBuffer + es[k].chunk) && Carries(env, line, s);
  }

  // ---- requests and connections ----

  /** A request on an open connection gets the next id, its entry behind the others and a timer; when its frame cannot be
      written it is rejected at once, and when the endpoint has changed everything pending is. */
  lemma RequestIsSent(env: Env, es: seq<Event>, methodName: JsString, endpointOk: bool, writeOk: bool, socket: nat)
    requires Open(After(env, NEW_CLIENT, es), socket) && methodName != []
    ensures var c := After(env, NEW_CLIENT, es);
            var r := Request(c, methodName, endpointOk, writeOk);
            if !endpointOk then r.id == None && AllRejected(c, r.client, Endpoint, socket)
            else
              && r.id == Some(c.nextRequestId) && r.client.nextRequestId == c.nextRequestId + 1
              && r.client.pending == (if writeOk then c.pending + [Pending(c.nextRequestId, methodName)] else c.pending)
              && r.client.timers == (if writeOk then c.timers + {c.nextRequestId} else c.timers)
              && r.client.settled == (if writeOk then c.settled else c.settled + [Settlement(c.nextRequestId, Rejected(WriteError))])
              && r.client.socket == c.socket && r.client.delivered == c.delivered && r.client.receiveBuffer == c.receiveBuffer
  {
    hide After, FailConnection;
    var c := After(env, NEW_CLIENT, es);
    RunAccounted(env, es);
    FailRejects(c, Endpoint, socket);
    AccountedMeans(c, c.nextRequestId);
    var id := c.nextRequestId;
    forall j | 0 <= j < |c.pending| ensures c.pending[j].id != id { assert PendingIds(c.pending)[j] == c.pending[j].id; }
    var sent := c.pending + [Pending(id, methodName)];
    WithoutAt(sent, |c.pending|);
    assert sent[..|c.pending|] + sent[|c.pending| + 1..] == c.pending;
    assert id !in c.timers;
    assert c.timers + {id} - {id} == c.timers;
  }

  /** After closing, a client that is not disposed connects to a new socket with an empty buffer and nothing pending. */
  lemma ReconnectIsClean(c: Client)
    requires !c.disposed && c.sockets !in c.destroyed && c.socket != Some(c.sockets)
    ensures var d := Opened(Closed(c));
            Open(d, c.sockets) && c.socket != Some(c.sockets) && d.receiveBuffer == [] && d.pending == [] && d.settled == Closed(c).settled
  {
  }
}
