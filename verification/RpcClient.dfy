/** The JSON-RPC client of the App Server: requests in flight, the framing of the character stream, and the
    handlers of socket events. */
module RpcClient {
  import opened JsStrings
  import opened Wrappers

  /** Response ids as requestIdKey tells them apart: a number, or a string. */
  datatype RequestId = Number(n: int) | Text(s: JsString) | Fraction

  datatype ErrorKind = Connection | Timeout | Rpc | Protocol | SchemaDrift | TurnMismatch | Endpoint | WriteError
  datatype Outcome = Resolved(result: JsString) | Rejected(kind: ErrorKind)

  datatype Pending = Pending(id: nat, methodName: JsString)
  datatype Settlement = Settlement(id: nat, outcome: Outcome)

  /** A parsed line. `mentionsTurn`: the error message contains expectedTurnId in any case. */
  datatype Message =
    | Result(id: Option<RequestId>, result: JsString)
    | Error(id: Option<RequestId>, code: int, mentionsTurn: bool)
    | Notification(text: JsString)
    | ServerRequest(requestId: RequestId)
    | Malformed
    | NotJson

  /** JSON.parse with the shape checks, and whether answering a server request succeeds. */
  datatype Env = Env(decode: JsString -> Message, answers: bool)

  /** The client's fields, and what it did: settled promises, delivered notifications, answered server requests. A
      socket is known by its number. */
  datatype Client = Client(
    pending: seq<Pending>,
    timers: set<nat>,
    nextRequestId: nat,
    socket: Option<nat>,
    destroyed: set<nat>,
    sockets: nat,
    receiveBuffer: JsString,
    initialized: bool,
    disposed: bool,
    settled: seq<Settlement>,
    delivered: seq<JsString>,
    answered: seq<RequestId>)

  function WithBuffer(c: Client, buffer: JsString): Client { c.(receiveBuffer := buffer) }

  const MAX_FRAME_BYTES: nat := 8 * 1024 * 1024
  const NEWLINE: CodeUnit := 0x0A
  const RETURN: CodeUnit := 0x0D

  // ---- pending requests: a Map in insertion order ----

  function Find(ps: seq<Pending>, id: nat): (r: Option<Pending>)
    ensures r.Some? <==> exists i :: 0 <= i < |ps| && ps[i].id == id
    ensures r.Some? ==> r.value in ps && r.value.id == id
  {
    if ps == [] then None
    else
      var rest := Find(ps[1..], id);
      if ps[0].id == id then Some(ps[0]) else if rest.Some? then rest
      else assert forall i :: 1 <= i < |ps| ==> ps[i] == ps[1..][i - 1]; None
  }

  function Without(ps: seq<Pending>, id: nat): seq<Pending> {
    if ps == [] then []
    else if ps[0].id == id then Without(ps[1..], id)
    else [ps[0]] + Without(ps[1..], id)
  }

  function PendingIds(ps: seq<Pending>): seq<nat> { seq(|ps|, i requires 0 <= i < |ps| => ps[i].id) }
  function SettledIds(ss: seq<Settlement>): seq<nat> { seq(|ss|, i requires 0 <= i < |ss| => ss[i].id) }

  function Rejections(ps: seq<Pending>, kind: ErrorKind): seq<Settlement> {
    seq(|ps|, i requires 0 <= i < |ps| => Settlement(ps[i].id, Rejected(kind)))
  }

  // ---- the handlers ----

  function Settle(c: Client, id: nat, outcome: Outcome): Client {
    c.(pending := Without(c.pending, id), timers := c.timers - {id}, settled := c.settled + [Settlement(id, outcome)])
  }

  function RejectPending(c: Client, kind: ErrorKind): Client {
    c.(pending := [], timers := c.timers - (set p | p in c.pending :: p.id), settled := c.settled + Rejections(c.pending, kind))
  }

  function FailConnection(c: Client, kind: ErrorKind, socket: nat): Client {
    var rejected := RejectPending(c, kind);
    if c.socket == Some(socket) then rejected.(destroyed := c.destroyed + {socket}) else rejected
  }

  function ErrorKindOf(code: int, mentionsTurn: bool): ErrorKind {
    if code == -32601 then SchemaDrift else if code == -32602 || mentionsTurn then TurnMismatch else Rpc
  }

  /** A response settles the pending request with its id, if there is one. */
  function Respond(c: Client, id: Option<RequestId>, outcome: Outcome): Client {
    if id.None? || !id.value.Number? || id.value.n < 0 || Find(c.pending, id.value.n).None? then c
    else Settle(c, id.value.n, outcome)
  }

  function HandleMessage(env: Env, c: Client, m: Message, socket: nat): Client {
    match m
    case Result(id, result) => Respond(c, id, Resolved(result))
    case Error(id, code, mentionsTurn) => Respond(c, id, Rejected(ErrorKindOf(code, mentionsTurn)))
    case Notification(text) => c.(delivered := c.delivered + [text])
    case ServerRequest(id) => if env.answers then c.(answered := c.answered + [id]) else FailConnection(c, Endpoint, socket)
    case Malformed => FailConnection(c, Protocol, socket)
    case NotJson => FailConnection(c, Protocol, socket)
  }

  // ---- framing ----

  function IndexOfNewline(s: JsString): (i: int)
    ensures -1 <= i < |s|
    ensures i >= 0 ==> s[i] == NEWLINE && NEWLINE !in s[..i]
    ensures i < 0 ==> NEWLINE !in s
  {
    if s == [] then -1
    else if s[0] == NEWLINE then 0
    else
      var i := IndexOfNewline(s[1..]);
      assert s == [s[0]] + s[1..];
      if i < 0 then -1 else
        assert s[..i + 1] == [s[0]] + s[1..][..i];
        i + 1
  }

  function StripReturn(line: JsString): JsString {
    if line != [] && line[|line| - 1] == RETURN then line[..|line| - 1] else line
  }

  predicate WhiteSpace(c: int) {
    9 <= c <= 13 || c == 32 || c == 0xA0 || c == 0x1680 || 0x2000 <= c <= 0x200A || c == 0x2028 || c == 0x2029 || c == 0x202F
    || c == 0x205F || c == 0x3000 || c == 0xFEFF
  }

  predicate Blank(line: JsString) { forall i :: 0 <= i < |line| ==> WhiteSpace(line[i]) }

  /** The complete lines of a buffer, without their ends and without blank ones. */
  function Frames(s: JsString): seq<JsString>
    decreases |s|
  {
    var i := IndexOfNewline(s);
    if i < 0 then []
    else
      var line := StripReturn(s[..i]);
      (if Blank(line) then [] else [line]) + Frames(s[i + 1..])
  }

  /** What follows the last newline. */
  function Rest(s: JsString): JsString
    decreases |s|
  {
    var i := IndexOfNewline(s);
    if i < 0 then s else Rest(s[i + 1..])
  }

  /** The loop of the data handler: a line that is not JSON ends it, any other failure does not. */
  function Drain(env: Env, c: Client, socket: nat): Client
    decreases |c.receiveBuffer|
  {
    var i := IndexOfNewline(c.receiveBuffer);
    if i < 0 then c
    else
      var line := StripReturn(c.receiveBuffer[..i]);
      var next := WithBuffer(c, c.receiveBuffer[i + 1..]);
      if Blank(line) then Drain(env, next, socket)
      else if env.decode(line).NotJson? then FailConnection(next, Protocol, socket)
      else Drain(env, WithBuffer(HandleMessage(env, next, env.decode(line), socket), next.receiveBuffer), socket)
  }

  /** A destroyed socket emits no data. */
  function Data(env: Env, c: Client, chunk: JsString, socket: nat): Client {
    if socket in c.destroyed then c
    else
      var filled := WithBuffer(c, c.receiveBuffer + chunk);
      if |Utf8(filled.receiveBuffer)| > MAX_FRAME_BYTES then FailConnection(filled, Protocol, socket)
      else Drain(env, filled, socket)
  }

  function Opened(c: Client): Client {
    if c.disposed || (c.socket.Some? && c.socket.value !in c.destroyed) then c
    else c.(socket := Some(c.sockets), sockets := c.sockets + 1, receiveBuffer := [])
  }

  /** A connect that fails or times out. */
  function ConnectFailed(c: Client, socket: nat): Client {
    if c.socket == Some(socket) then c.(socket := None, destroyed := c.destroyed + {socket}) else c
  }

  function SocketClosed(c: Client, socket: nat): Client {
    if c.socket != Some(socket) then c
    else RejectPending(c.(socket := None, initialized := false), Connection)
  }

  function Closed(c: Client): Client {
    var rejected := RejectPending(c.(socket := None, initialized := false), Connection);
    if c.socket.Some? then rejected.(destroyed := rejected.destroyed + {c.socket.value}) else rejected
  }

  datatype Requested = Requested(client: Client, id: Option<nat>)

  /** A request once connected: None when it never gets an id. A frame that cannot be written settles at once. */
  function Request(c: Client, methodName: JsString, endpointOk: bool, writeOk: bool): Requested {
    if methodName == [] || c.socket.None? || c.socket.value in c.destroyed then Requested(c, None)
    else if !endpointOk then Requested(FailConnection(c, Endpoint, c.socket.value), None)
    else
      var id := c.nextRequestId;
      var sent := c.(nextRequestId := id + 1, pending := c.pending + [Pending(id, methodName)], timers := c.timers + {id});
      Requested(if writeOk then sent else Settle(sent, id, Rejected(WriteError)), Some(id))
  }

  /** A timer that was not cleared fires. */
  function TimedOut(c: Client, id: nat): Client {
    if id in c.timers then Settle(c, id, Rejected(Timeout)) else c
  }

  // ---- the client object ----

  /** The first `i` pending requests rejected. */
  function Rejecting(c: Client, i: nat, kind: ErrorKind): Client
    requires i <= |c.pending|
  {
    c.(pending := c.pending[i..], timers := c.timers - (set p | p in c.pending[..i] :: p.id),
       settled := c.settled + Rejections(c.pending[..i], kind))
  }

  lemma RejectingEnds(c: Client, kind: ErrorKind)
    ensures Rejecting(c, 0, kind) == c && Rejecting(c, |c.pending|, kind) == RejectPending(c, kind)
  {
    assert c.pending[..|c.pending|] == c.pending;
    assert c.settled + Rejections(c.pending[..0], kind) == c.settled;
    assert (set p | p in c.pending[..0] :: p.id) == {};
  }

  lemma RejectingNext(c: Client, i: nat, kind: ErrorKind)
    requires i < |c.pending|
    ensures var d, p := Rejecting(c, i, kind), c.pending[i];
            && d.pending != [] && d.pending[0] == p
            && Rejecting(c, i + 1, kind)
               == d.(timers := d.timers - {p.id}, pending := d.pending[1..], settled := d.settled + [Settlement(p.id, Rejected(kind))])
  {
    var before, p := c.pending[..i], c.pending[i];
    assert c.pending[..i + 1] == before + [p];
    assert (set q | q in before + [p] :: q.id) == (set q | q in before :: q.id) + {p.id};
    assert Rejections(before + [p], kind) == Rejections(before, kind) + [Settlement(p.id, Rejected(kind))];
  }

  class CodexAppServerRpcClient {
    var pending: seq<Pending>
    var timers: set<nat>
    var nextRequestId: nat
    var socket: Option<nat>
    var destroyed: set<nat>
    var sockets: nat
    var receiveBuffer: JsString
    var initialized: bool
    var disposed: bool
    var settled: seq<Settlement>
    var delivered: seq<JsString>
    var answered: seq<RequestId>
    const env: Env

    constructor (env: Env)
      ensures State() == NEW_CLIENT && this.env == env
    {
      this.env := env;
      pending, timers, nextRequestId, socket, destroyed, sockets := [], {}, 1, None, {}, 0;
      receiveBuffer, initialized, disposed, settled, delivered, answered := [], false, false, [], [], [];
    }

    ghost function State(): Client
      reads this
    {
      Client(pending, timers, nextRequestId, socket, destroyed, sockets, receiveBuffer, initialized, disposed, settled, delivered,
             answered)
    }

    method RejectAll(kind: ErrorKind)
      modifies this
      ensures State() == RejectPending(old(State()), kind)
    {
      hide Rejecting, RejectPending;
      ghost var c := State();
      var entries := pending;
      RejectingEnds(c, kind);
      for i := 0 to |entries|
        invariant State() == Rejecting(c, i, kind)
      {
        RejectingNext(c, i, kind);
        timers := timers - {entries[i].id};
        pending := pending[1..];
        settled := settled + [Settlement(entries[i].id, Rejected(kind))];
      }
    }

    method Fail(kind: ErrorKind, on: nat)
      modifies this
      ensures State() == FailConnection(old(State()), kind, on)
    {
      RejectAll(kind);
      if socket == Some(on) && on !in destroyed { destroyed := destroyed + {on}; }
    }

    method Handle(m: Message, on: nat)
      modifies this
      ensures State() == HandleMessage(env, old(State()), m, on)
    {
      match m {
        case Result(id, result) => SettleIfPending(id, Resolved(result));
        case Error(id, code, mentionsTurn) => SettleIfPending(id, Rejected(ErrorKindOf(code, mentionsTurn)));
        case Notification(text) => delivered := delivered + [text];
        case ServerRequest(id) =>
          if env.answers { answered := answered + [id]; } else { Fail(Endpoint, on); }
        case Malformed => Fail(Protocol, on);
        case NotJson => Fail(Protocol, on);
      }
    }

    method SettleIfPending(id: Option<RequestId>, outcome: Outcome)
      modifies this
      ensures State() == Respond(old(State()), id, outcome)
    {
      if id.None? || !id.value.Number? || id.value.n < 0 { return; }
      var found := Find(pending, id.value.n);
      if found.None? { return; }
      pending := Without(pending, id.value.n);
      timers := timers - {id.value.n};
      settled := settled + [Settlement(id.value.n, outcome)];
    }

    method OnData(chunk: JsString, on: nat)
      modifies this
      ensures State() == Data(env, old(State()), chunk, on)
    {
      if on in destroyed { return; }
      receiveBuffer := receiveBuffer + chunk;
      if |Utf8(receiveBuffer)| > MAX_FRAME_BYTES {
        Fail(Protocol, on);
        return;
      }
      DrainBuffer(on);
    }

    method DrainBuffer(on: nat)
      modifies this
      ensures State() == Drain(env, old(State()), on)
    {
      hide Drain, FailConnection, HandleMessage, Blank;
      ghost var filled := State();
      while true
        invariant Drain(env, State(), on) == Drain(env, filled, on)
        decreases |receiveBuffer|
      {
        DrainNext(env, State(), on);
        var newline := IndexOfNewline(receiveBuffer);
        if newline < 0 { return; }
        var line := StripReturn(receiveBuffer[..newline]);
        receiveBuffer := receiveBuffer[newline + 1..];
        if Blank(line) { continue; }
        var decoded := env.decode(line);
        if decoded.NotJson? {
          Fail(Protocol, on);
          return;
        }
        ghost var before := State();
        Handle(decoded, on);
        HandleKeepsBuffer(env, before, decoded, on);
      }
    }

    method OnClose(on: nat)
      modifies this
      ensures State() == SocketClosed(old(State()), on)
    {
      if socket != Some(on) { return; }
      socket := None;
      initialized := false;
      RejectAll(Connection);
    }

    method SendRequest(methodName: JsString, endpointOk: bool, writeOk: bool) returns (id: Option<nat>)
      modifies this
      ensures Requested(State(), id) == Request(old(State()), methodName, endpointOk, writeOk)
    {
      if methodName == [] || socket.None? || socket.value in destroyed { return None; }
      if !endpointOk {
        Fail(Endpoint, socket.value);
        return None;
      }
      var key := nextRequestId;
      nextRequestId := nextRequestId + 1;
      timers := timers + {key};
      pending := pending + [Pending(key, methodName)];
      if !writeOk {
        timers := timers - {key};
        pending := Without(pending, key);
        settled := settled + [Settlement(key, Rejected(WriteError))];
      }
      return Some(key);
    }

    method OnTimeout(id: nat)
      modifies this
      ensures State() == TimedOut(old(State()), id)
    {
      if id !in timers { return; }
      timers := timers - {id};
      pending := Without(pending, id);
      settled := settled + [Settlement(id, Rejected(Timeout))];
    }

    method Close()
      modifies this
      ensures State() == Closed(old(State()))
    {
      var open := socket;
      socket := None;
      initialized := false;
      RejectAll(Connection);
      if open.Some? { destroyed := destroyed + {open.value}; }
    }
  }

  const NEW_CLIENT: Client := Client([], {}, 1, None, {}, 0, [], false, false, [], [], [])

  lemma DrainNext(env: Env, c: Client, socket: nat)
    ensures var i := IndexOfNewline(c.receiveBuffer);
            if i < 0 then Drain(env, c, socket) == c
            else
              var line, next := StripReturn(c.receiveBuffer[..i]), WithBuffer(c, c.receiveBuffer[i + 1..]);
              Drain(env, c, socket)
              == if Blank(line) then Drain(env, next, socket)
                 else if env.decode(line).NotJson? then FailConnection(next, Protocol, socket)
                 else Drain(env, WithBuffer(HandleMessage(env, next, env.decode(line), socket), next.receiveBuffer), socket)
  {
    hide FailConnection, HandleMessage, Blank;
  }

  lemma HandleKeepsBuffer(env: Env, c: Client, m: Message, socket: nat)
    ensures HandleMessage(env, c, m, socket).receiveBuffer == c.receiveBuffer
  {
  }

  // ---- every request settles exactly once ----

  function Issued(n: nat): seq<nat> {
    if n <= 1 then [] else Issued(n - 1) + [n - 1]
  }

  /** The requests issued so far are the settled and the pending ones, each once, and the pending have a timer. */
  ghost predicate Accounted(c: Client) {
    && c.nextRequestId >= 1
    && multiset(SettledIds(c.settled)) + multiset(PendingIds(c.pending)) == multiset(Issued(c.nextRequestId))
    && forall id :: id in c.timers <==> id in PendingIds(c.pending)
  }

  lemma {:induction false} IssuedOnce(n: nat, id: nat)
    ensures multiset(Issued(n))[id] == if 1 <= id < n then 1 else 0
  {
    if n > 1 { IssuedOnce(n - 1, id); }
  }

  /** What the accounting says: an id settles at most once, and is pending exactly while issued and unsettled. */
  lemma AccountedMeans(c: Client, id: nat)
    requires Accounted(c)
    ensures multiset(SettledIds(c.settled))[id] <= 1
    ensures 1 <= id < c.nextRequestId ==> (id in PendingIds(c.pending) <==> id !in SettledIds(c.settled))
    ensures id in PendingIds(c.pending) || id in SettledIds(c.settled) ==> 1 <= id < c.nextRequestId
  {
    IssuedOnce(c.nextRequestId, id);
    var s, p := multiset(SettledIds(c.settled)), multiset(PendingIds(c.pending));
    assert (s + p)[id] == s[id] + p[id];
    assert id in SettledIds(c.settled) <==> id in s;
    assert id in PendingIds(c.pending) <==> id in p;
  }

  lemma {:induction false} WithoutIds(ps: seq<Pending>, id: nat)
    ensures multiset(PendingIds(Without(ps, id))) == multiset(PendingIds(ps))[id := 0]
    decreases |ps|
  {
    if ps == [] {
      assert PendingIds(ps) == [];
    } else {
      hide PendingIds;
      WithoutIds(ps[1..], id);
      assert ps == [ps[0]] + ps[1..];
      PendingFirst(ps[0], ps[1..]);
      if ps[0].id != id { PendingFirst(ps[0], Without(ps[1..], id)); }
    }
  }

  lemma PendingFirst(p: Pending, ps: seq<Pending>)
    ensures multiset(PendingIds([p] + ps)) == multiset{p.id} + multiset(PendingIds(ps))
  {
    assert PendingIds([p] + ps) == [p.id] + PendingIds(ps);
  }

  lemma FoundIsPending(ps: seq<Pending>, id: nat)
    ensures Find(ps, id).Some? <==> id in PendingIds(ps)
  {
    if Find(ps, id).Some? {
      var i :| 0 <= i < |ps| && ps[i].id == id;
      assert PendingIds(ps)[i] == id;
    }
  }

  lemma SettleAccounted(c: Client, id: nat, outcome: Outcome)
    requires Accounted(c) && id in PendingIds(c.pending)
    ensures Accounted(Settle(c, id, outcome))
  {
    var next := Settle(c, id, outcome);
    WithoutIds(c.pending, id);
    AccountedMeans(c, id);
    IssuedOnce(c.nextRequestId, id);
    var s, p := multiset(SettledIds(c.settled)), multiset(PendingIds(c.pending));
    assert (s + p)[id] == 1;
    assert SettledIds(next.settled) == SettledIds(c.settled) + [id];
    assert multiset(SettledIds(next.settled)) == s + multiset{id};
    assert p[id := 0] + multiset{id} == p;
    forall k ensures k in next.timers <==> k in PendingIds(next.pending) {
      assert k in PendingIds(next.pending) <==> k in p[id := 0];
      assert k in PendingIds(c.pending) <==> k in p;
    }
  }

  lemma RejectAccounted(c: Client, kind: ErrorKind)
    requires Accounted(c)
    ensures Accounted(RejectPending(c, kind))
  {
    var next := RejectPending(c, kind);
    assert SettledIds(next.settled) == SettledIds(c.settled) + PendingIds(c.pending);
    assert PendingIds(next.pending) == [];
    forall id | id in c.timers ensures id in set p | p in c.pending :: p.id {
      var i :| 0 <= i < |c.pending| && PendingIds(c.pending)[i] == id;
      assert c.pending[i] in c.pending;
    }
  }

  lemma FailAccounted(c: Client, kind: ErrorKind, socket: nat)
    requires Accounted(c)
    ensures Accounted(FailConnection(c, kind, socket))
  {
    RejectAccounted(c, kind);
  }

  lemma RespondAccounted(c: Client, id: Option<RequestId>, outcome: Outcome)
    requires Accounted(c)
    ensures Accounted(Respond(c, id, outcome))
  {
    if id.Some? && id.value.Number? && id.value.n >= 0 {
      FoundIsPending(c.pending, id.value.n);
      if Find(c.pending, id.value.n).Some? { SettleAccounted(c, id.value.n, outcome); }
    }
  }

  lemma HandleAccounted(env: Env, c: Client, m: Message, socket: nat)
    requires Accounted(c)
    ensures Accounted(HandleMessage(env, c, m, socket))
  {
    hide Respond, FailConnection;
    FailAccounted(c, Protocol, socket);
    FailAccounted(c, Endpoint, socket);
    match m {
      case Result(id, result) => RespondAccounted(c, id, Resolved(result));
      case Error(id, code, mentionsTurn) => RespondAccounted(c, id, Rejected(ErrorKindOf(code, mentionsTurn)));
      case _ =>
    }
  }

  /** The buffer has no part in the accounting. */
  lemma BufferAccounted(c: Client, buffer: JsString)
    requires Accounted(c)
    ensures Accounted(WithBuffer(c, buffer))
  {
  }

  lemma {:induction false} DrainAccounted(env: Env, c: Client, socket: nat)
    requires Accounted(c)
    ensures Accounted(Drain(env, c, socket))
    decreases |c.receiveBuffer|
  {
    hide HandleMessage, Blank, StripReturn, FailConnection, Accounted;
    var i := IndexOfNewline(c.receiveBuffer);
    if i >= 0 {
      var line := StripReturn(c.receiveBuffer[..i]);
      var next := WithBuffer(c, c.receiveBuffer[i + 1..]);
      BufferAccounted(c, next.receiveBuffer);
      if Blank(line) {
        DrainAccounted(env, next, socket);
      } else if env.decode(line).NotJson? {
        FailAccounted(next, Protocol, socket);
      } else {
        var handled := HandleMessage(env, next, env.decode(line), socket);
        HandleAccounted(env, next, env.decode(line), socket);
        BufferAccounted(handled, next.receiveBuffer);
        DrainAccounted(env, WithBuffer(handled, next.receiveBuffer), socket);
      }
    }
  }

  function Sent(c: Client, methodName: JsString): Client {
    var id := c.nextRequestId;
    c.(nextRequestId := id + 1, pending := c.pending + [Pending(id, methodName)], timers := c.timers + {id})
  }

  lemma SentAccounted(c: Client, methodName: JsString)
    requires Accounted(c)
    ensures Accounted(Sent(c, methodName)) && c.nextRequestId in PendingIds(Sent(c, methodName).pending)
  {
    hide PendingIds, SettledIds, Issued;
    var id, sent := c.nextRequestId, Sent(c, methodName);
    PendingNext(c.pending, Pending(id, methodName));
    IssuedNext(id);
    forall k ensures k in sent.timers <==> k in PendingIds(sent.pending) {
      assert k in PendingIds(sent.pending) <==> k in PendingIds(c.pending) || k == id;
    }
  }

  lemma PendingNext(ps: seq<Pending>, p: Pending)
    ensures PendingIds(ps + [p]) == PendingIds(ps) + [p.id]
    ensures multiset(PendingIds(ps + [p])) == multiset(PendingIds(ps)) + multiset{p.id}
  {
    assert PendingIds(ps + [p]) == PendingIds(ps) + [p.id];
  }

  lemma IssuedNext(n: nat)
    requires n >= 1
    ensures multiset(Issued(n + 1)) == multiset(Issued(n)) + multiset{n}
  {
    assert Issued(n + 1) == Issued(n) + [n];
  }

  lemma RequestAccounted(c: Client, methodName: JsString, endpointOk: bool, writeOk: bool)
    requires Accounted(c)
    ensures Accounted(Request(c, methodName, endpointOk, writeOk).client)
  {
    hide FailConnection, Settle, Accounted;
    if c.socket.Some? { FailAccounted(c, Endpoint, c.socket.value); }
    SentAccounted(c, methodName);
    SettleAccounted(Sent(c, methodName), c.nextRequestId, Rejected(WriteError));
  }

  // ---- runs ----

  datatype Event =
    | Connects
    | ConnectFails(socket: nat)
    | Requests(methodName: JsString, endpointOk: bool, writeOk: bool)
    | Receives(chunk: JsString, socket: nat)
    | SocketErrors(socket: nat)
    | SocketCloses(socket: nat)
    | TimerFires(id: nat)
    | Closes
    | Disposes

  function Next(env: Env, c: Client, e: Event): Client {
    match e
    case Connects => Opened(c)
    case ConnectFails(socket) => ConnectFailed(c, socket)
    case Requests(methodName, endpointOk, writeOk) => Request(c, methodName, endpointOk, writeOk).client
    case Receives(chunk, socket) => Data(env, c, chunk, socket)
    case SocketErrors(socket) => FailConnection(c, Connection, socket)
    case SocketCloses(socket) => SocketClosed(c, socket)
    case TimerFires(id) => TimedOut(c, id)
    case Closes => Closed(c)
    case Disposes => Closed(c.(disposed := true))
  }

  function After(env: Env, c: Client, es: seq<Event>): Client {
    if es == [] then c else Next(env, After(env, c, es[..|es| - 1]), es[|es| - 1])
  }

  /** Sockets, flags and the buffer have no part in the accounting. */
  lemma SameAccounted(c: Client, d: Client)
    requires Accounted(c) && d.pending == c.pending && d.timers == c.timers && d.nextRequestId == c.nextRequestId
    requires d.settled == c.settled
    ensures Accounted(d)
  {
  }

  lemma DataAccounted(env: Env, c: Client, chunk: JsString, socket: nat)
    requires Accounted(c)
    ensures Accounted(Data(env, c, chunk, socket))
  {
    hide Drain, FailConnection, Accounted, Utf8;
    var filled := WithBuffer(c, c.receiveBuffer + chunk);
    BufferAccounted(c, filled.receiveBuffer);
    FailAccounted(filled, Protocol, socket);
    DrainAccounted(env, filled, socket);
  }

  lemma ClosedAccounted(c: Client)
    requires Accounted(c)
    ensures Accounted(Closed(c))
  {
    hide RejectPending, Accounted;
    var open := c.(socket := None, initialized := false);
    SameAccounted(c, open);
    RejectAccounted(open, Connection);
    SameAccounted(RejectPending(open, Connection), Closed(c));
  }

  lemma SocketClosedAccounted(c: Client, socket: nat)
    requires Accounted(c)
    ensures Accounted(SocketClosed(c, socket))
  {
    hide RejectPending, Accounted;
    var open := c.(socket := None, initialized := false);
    SameAccounted(c, open);
    RejectAccounted(open, Connection);
  }

  lemma TimedOutAccounted(c: Client, id: nat)
    requires Accounted(c)
    ensures Accounted(TimedOut(c, id))
  {
    hide Settle;
    if id in c.timers { SettleAccounted(c, id, Rejected(Timeout)); }
  }

  lemma NextAccounted(env: Env, c: Client, e: Event)
    requires Accounted(c)
    ensures Accounted(Next(env, c, e))
  {
    hide Request, Data, FailConnection, SocketClosed, TimedOut, Closed, Opened, ConnectFailed, Accounted;
    match e {
      case Requests(methodName, endpointOk, writeOk) => RequestAccounted(c, methodName, endpointOk, writeOk);
      case Receives(chunk, socket) => DataAccounted(env, c, chunk, socket);
      case SocketErrors(socket) => FailAccounted(c, Connection, socket);
      case SocketCloses(socket) => SocketClosedAccounted(c, socket);
      case TimerFires(id) => TimedOutAccounted(c, id);
      case Closes => ClosedAccounted(c);
      case Disposes =>
        SameAccounted(c, c.(disposed := true));
        ClosedAccounted(c.(disposed := true));
      case Connects => ConnectAccounted(c);
      case ConnectFails(socket) => ConnectFailedAccounted(c, socket);
    }
  }

  lemma ConnectAccounted(c: Client)
    requires Accounted(c)
    ensures Accounted(Opened(c))
  {
    hide Accounted;
    SameAccounted(c, Opened(c));
  }

  lemma ConnectFailedAccounted(c: Client, socket: nat)
    requires Accounted(c)
    ensures Accounted(ConnectFailed(c, socket))
  {
    hide Accounted;
    SameAccounted(c, ConnectFailed(c, socket));
  }

  /** In every run each request settles at most once and is pending exactly until then. */
  lemma {:induction false} RunAccounted(env: Env, es: seq<Event>)
    ensures Accounted(After(env, NEW_CLIENT, es))
    decreases |es|
  {
    hide Next, Accounted;
    if es == [] {
      NewAccounted();
    } else {
      RunAccounted(env, es[..|es| - 1]);
      NextAccounted(env, After(env, NEW_CLIENT, es[..|es| - 1]), es[|es| - 1]);
    }
  }

  lemma NewAccounted()
    ensures Accounted(NEW_CLIENT)
  {
    assert SettledIds(NEW_CLIENT.settled) == [] && PendingIds(NEW_CLIENT.pending) == [];
  }

  // ---- settled for good, ids never used again ----

  lemma RejectExtends(c: Client, kind: ErrorKind, socket: nat)
    ensures c.settled <= RejectPending(c, kind).settled && RejectPending(c, kind).nextRequestId == c.nextRequestId
    ensures c.settled <= FailConnection(c, kind, socket).settled && FailConnection(c, kind, socket).nextRequestId == c.nextRequestId
  {
  }

  lemma HandleExtends(env: Env, c: Client, m: Message, socket: nat)
    ensures c.settled <= HandleMessage(env, c, m, socket).settled && HandleMessage(env, c, m, socket).nextRequestId == c.nextRequestId
  {
    hide FailConnection, Find, Without;
    RejectExtends(c, Protocol, socket);
    RejectExtends(c, Endpoint, socket);
  }

  lemma {:induction false} DrainExtends(env: Env, c: Client, socket: nat)
    ensures c.settled <= Drain(env, c, socket).settled && Drain(env, c, socket).nextRequestId == c.nextRequestId
    decreases |c.receiveBuffer|
  {
    hide HandleMessage, Blank, StripReturn, FailConnection;
    var i := IndexOfNewline(c.receiveBuffer);
    if i >= 0 {
      var line := StripReturn(c.receiveBuffer[..i]);
      var next := WithBuffer(c, c.receiveBuffer[i + 1..]);
      if Blank(line) {
        DrainExtends(env, next, socket);
      } else if env.decode(line).NotJson? {
        RejectExtends(next, Protocol, socket);
      } else {
        var handled := WithBuffer(HandleMessage(env, next, env.decode(line), socket), next.receiveBuffer);
        HandleExtends(env, next, env.decode(line), socket);
        DrainExtends(env, handled, socket);
      }
    }
  }

  /** Settlements are only added, and the next id only grows. */
  lemma NextExtends(env: Env, c: Client, e: Event)
    ensures c.settled <= Next(env, c, e).settled && c.nextRequestId <= Next(env, c, e).nextRequestId
  {
    hide Drain, RejectPending, FailConnection, Without;
    match e {
      case Receives(chunk, socket) =>
        var filled := WithBuffer(c, c.receiveBuffer + chunk);
        RejectExtends(filled, Protocol, socket);
        DrainExtends(env, filled, socket);
      case SocketErrors(socket) => RejectExtends(c, Connection, socket);
      case SocketCloses(socket) => RejectExtends(c.(socket := None, initialized := false), Connection, 0);
      case Closes => RejectExtends(c.(socket := None, initialized := false), Connection, 0);
      case Disposes => RejectExtends(c.(disposed := true, socket := None, initialized := false), Connection, 0);
      case Requests(methodName, endpointOk, writeOk) =>
        if c.socket.Some? { RejectExtends(c, Endpoint, c.socket.value); }
      case _ =>
    }
  }

  lemma {:induction false} AfterExtends(env: Env, c: Client, es: seq<Event>, more: seq<Event>)
    ensures After(env, c, es).settled <= After(env, c, es + more).settled
    ensures After(env, c, es).nextRequestId <= After(env, c, es + more).nextRequestId
    decreases |more|
  {
    hide Next;
    if more == [] {
      assert es + more == es;
    } else {
      var init := more[..|more| - 1];
      AfterExtends(env, c, es, init);
      assert (es + more)[..|es + more| - 1] == es + init;
      NextExtends(env, After(env, c, es + init), more[|more| - 1]);
    }
  }

  lemma SettledStays(a: seq<Settlement>, b: seq<Settlement>, id: nat)
    requires a <= b && id in SettledIds(a)
    ensures id in SettledIds(b)
  {
    var i :| 0 <= i < |a| && SettledIds(a)[i] == id;
    assert b[i] == a[i];
    assert SettledIds(b)[i] == id;
  }

  /** The timer of a request, and closing the client, leave it settled. */
  predicate Ends(e: Event, id: nat) { e == TimerFires(id) || e.Closes? || e.Disposes? }

  lemma EndSettles(env: Env, c: Client, e: Event, id: nat)
    requires Accounted(c) && 1 <= id < c.nextRequestId && Ends(e, id)
    ensures id in SettledIds(Next(env, c, e).settled)
  {
    hide SettledIds, PendingIds, Issued, Find, Without, RejectPending;
    var next := Next(env, c, e);
    AccountedMeans(c, id);
    NextAccounted(env, c, e);
    NextExtends(env, c, e);
    AccountedMeans(next, id);
    if id in SettledIds(c.settled) {
      SettledStays(c.settled, next.settled, id);
    } else if e == TimerFires(id) {
      assert id in c.timers;
      assert next == Settle(c, id, Rejected(Timeout));
      LastSettled(c.settled, Settlement(id, Rejected(Timeout)));
    } else {
      NonePending(c);
    }
  }

  lemma LastSettled(ss: seq<Settlement>, s: Settlement)
    ensures s.id in SettledIds(ss + [s])
  {
    assert SettledIds(ss + [s])[|ss|] == s.id;
  }

  lemma NonePending(c: Client)
    ensures Closed(c).pending == [] && Closed(c.(disposed := true)).pending == [] && PendingIds([]) == []
  {
  }

  /** Whatever else happens, a request whose timer fires, or whose client is closed, is settled from then on, once. */
  lemma SettledOnce(env: Env, es: seq<Event>, more: seq<Event>, id: nat)
    requires 1 <= id < After(env, NEW_CLIENT, es).nextRequestId && exists k :: 0 <= k < |more| && Ends(more[k], id)
    ensures var c := After(env, NEW_CLIENT, es + more);
            multiset(SettledIds(c.settled))[id] == 1 && id !in PendingIds(c.pending) && id !in c.timers
  {
    hide Next, SettledIds, PendingIds, Issued, Ends, After, Accounted;
    var k :| 0 <= k < |more| && Ends(more[k], id);
    var before, upTo := es + more[..k], es + more[..k + 1];
    AfterNext(env, es, more, k);
    RunAccounted(env, before);
    AfterExtends(env, NEW_CLIENT, es, more[..k]);
    EndSettles(env, After(env, NEW_CLIENT, before), more[k], id);
    AfterExtends(env, NEW_CLIENT, upTo, more[k + 1..]);
    SettledStays(After(env, NEW_CLIENT, upTo).settled, After(env, NEW_CLIENT, es + more).settled, id);
    RunAccounted(env, es + more);
    SettledMeans(After(env, NEW_CLIENT, es + more), id);
  }

  lemma AfterNext(env: Env, es: seq<Event>, more: seq<Event>, k: nat)
    requires k < |more|
    ensures After(env, NEW_CLIENT, es + more[..k + 1]) == Next(env, After(env, NEW_CLIENT, es + more[..k]), more[k])
    ensures es + more[..k + 1] + more[k + 1..] == es + more
  {
    hide Next;
    var upTo := es + more[..k + 1];
    assert upTo[..|upTo| - 1] == es + more[..k] && upTo[|upTo| - 1] == more[k];
  }

  lemma SettledMeans(c: Client, id: nat)
    requires Accounted(c) && id in SettledIds(c.settled)
    ensures multiset(SettledIds(c.settled))[id] == 1 && id !in PendingIds(c.pending) && id !in c.timers
  {
    AccountedMeans(c, id);
    assert id in multiset(SettledIds(c.settled));
  }

  /** Closing leaves nothing pending, and every request ever issued settled exactly once. */
  lemma CloseSettlesAll(env: Env, es: seq<Event>)
    ensures var c := After(env, NEW_CLIENT, es + [Closes]);
            && c.pending == [] && c.timers == {}
            && forall id :: 1 <= id < c.nextRequestId ==> multiset(SettledIds(c.settled))[id] == 1
  {
    hide SettledIds, Issued;
    var all := es + [Closes];
    var c := After(env, NEW_CLIENT, all);
    assert all[..|all| - 1] == es;
    assert c == Closed(After(env, NEW_CLIENT, es));
    NonePending(After(env, NEW_CLIENT, es));
    RunAccounted(env, all);
    assert forall id :: id !in c.timers;
    forall id | 1 <= id < c.nextRequestId ensures multiset(SettledIds(c.settled))[id] == 1 {
      assert Ends([Closes][0], id);
      SettledOnce(env, es, [Closes], id);
    }
  }

  /** A new request gets an id that no request had before, on whatever connection. */
  lemma IdsAreFresh(env: Env, es: seq<Event>, methodName: JsString, endpointOk: bool, writeOk: bool)
    ensures var c := After(env, NEW_CLIENT, es);
            var id := Request(c, methodName, endpointOk, writeOk).id;
            id.Some? ==> id.value !in SettledIds(c.settled) && id.value !in PendingIds(c.pending)
  {
    hide After, FailConnection, Settle;
    RunAccounted(env, es);
    var c := After(env, NEW_CLIENT, es);
    AccountedMeans(c, c.nextRequestId);
  }

  /** Once a request is settled, a response with its id settles nothing, then and in every later state. */
  lemma LateResponseIgnored(env: Env, es: seq<Event>, more: seq<Event>, id: nat, outcome: Outcome)
    requires id in SettledIds(After(env, NEW_CLIENT, es).settled)
    ensures var c := After(env, NEW_CLIENT, es + more); Respond(c, Some(Number(id)), outcome) == c
  {
    hide After;
    var c := After(env, NEW_CLIENT, es + more);
    var before := After(env, NEW_CLIENT, es);
    AfterExtends(env, NEW_CLIENT, es, more);
    var i :| 0 <= i < |before.settled| && SettledIds(before.settled)[i] == id;
    assert c.settled[i] == before.settled[i];
    assert SettledIds(c.settled)[i] == id;
    RunAccounted(env, es + more);
    AccountedMeans(c, id);
    FoundIsPending(c.pending, id);
  }

  // ---- how the stream is cut ----

  /** The line fails the connection. */
  predicate Breaks(env: Env, line: JsString) {
    var m := env.decode(line);
    m.NotJson? || m.Malformed? || (m.ServerRequest? && !env.answers)
  }

  /** Handling lines up to and including the first that fails the connection. */
  function Careful(env: Env, c: Client, lines: seq<JsString>, socket: nat): Client
    decreases |lines|
  {
    if lines == [] then c
    else
      var handled := HandleMessage(env, c, env.decode(lines[0]), socket);
      if Breaks(env, lines[0]) then handled else Careful(env, handled, lines[1..], socket)
  }

  predicate AnyBreaks(env: Env, lines: seq<JsString>) { exists i :: 0 <= i < |lines| && Breaks(env, lines[i]) }

  /** Everything that concerns requests and the connection. */
  function Core(c: Client): Client { c.(receiveBuffer := [], delivered := [], answered := []) }

  predicate Open(c: Client, socket: nat) { c.socket == Some(socket) && socket !in c.destroyed }
  predicate Broken(c: Client, socket: nat) { c.socket == Some(socket) && socket in c.destroyed && c.pending == [] }

  lemma FailBreaks(c: Client, kind: ErrorKind, socket: nat)
    requires c.socket == Some(socket)
    ensures Broken(FailConnection(c, kind, socket), socket)
    ensures Broken(c, socket) ==> Core(FailConnection(c, kind, socket)) == Core(c)
  {
    if Broken(c, socket) {
      assert Rejections(c.pending, kind) == [];
      assert (set p | p in c.pending :: p.id) == {};
    }
  }

  lemma HandleKeepsOpen(env: Env, c: Client, line: JsString, socket: nat)
    requires c.socket == Some(socket)
    ensures var h := HandleMessage(env, c, env.decode(line), socket);
            && (Breaks(env, line) ==> Broken(h, socket))
            && (Open(c, socket) && !Breaks(env, line) ==> Open(h, socket))
            && (Broken(c, socket) ==> Broken(h, socket) && Core(h) == Core(c))
  {
    hide FailConnection;
    FailBreaks(c, Protocol, socket);
    FailBreaks(c, Endpoint, socket);
  }

  /** After the connection failed, the rest of the buffer concerns no request. */
  lemma {:induction false} DrainBroken(env: Env, c: Client, socket: nat)
    requires Broken(c, socket)
    ensures Core(Drain(env, c, socket)) == Core(c) && Broken(Drain(env, c, socket), socket)
    decreases |c.receiveBuffer|
  {
    hide HandleMessage, Blank, StripReturn, FailConnection;
    var i := IndexOfNewline(c.receiveBuffer);
    if i >= 0 {
      var line := StripReturn(c.receiveBuffer[..i]);
      var next := WithBuffer(c, c.receiveBuffer[i + 1..]);
      if Blank(line) {
        DrainBroken(env, next, socket);
      } else if env.decode(line).NotJson? {
        FailBreaks(next, Protocol, socket);
      } else {
        HandleKeepsOpen(env, next, line, socket);
        DrainBroken(env, WithBuffer(HandleMessage(env, next, env.decode(line), socket), next.receiveBuffer), socket);
      }
    }
  }

  /** The buffer has no part in handling a message. */
  lemma HandleIgnoresBuffer(env: Env, c: Client, m: Message, socket: nat, buffer: JsString)
    ensures HandleMessage(env, WithBuffer(c, buffer), m, socket) == WithBuffer(HandleMessage(env, c, m, socket), buffer)
  {
  }

  lemma {:induction false} CarefulIgnoresBuffer(env: Env, c: Client, lines: seq<JsString>, socket: nat, buffer: JsString)
    ensures Careful(env, WithBuffer(c, buffer), lines, socket) == WithBuffer(Careful(env, c, lines, socket), buffer)
    decreases |lines|
  {
    hide HandleMessage;
    if lines != [] {
      HandleIgnoresBuffer(env, c, env.decode(lines[0]), socket, buffer);
      CarefulIgnoresBuffer(env, HandleMessage(env, c, env.decode(lines[0]), socket), lines[1..], socket, buffer);
    }
  }

  lemma FramesNext(s: JsString)
    ensures var i := IndexOfNewline(s);
            if i < 0 then Frames(s) == [] && Rest(s) == s
            else var line := StripReturn(s[..i]);
                 Frames(s) == (if Blank(line) then [] else [line]) + Frames(s[i + 1..]) && Rest(s) == Rest(s[i + 1..])
  {
  }

  /** What draining does is what handling the frames up to the first that fails does. */
  predicate DrainFits(env: Env, c: Client, socket: nat) {
    var d, lines := Drain(env, c, socket), Frames(c.receiveBuffer);
    && Core(d) == Core(Careful(env, c, lines, socket))
    && (if AnyBreaks(env, lines) then Broken(d, socket)
        else Open(d, socket) && d == WithBuffer(Careful(env, c, lines, socket), Rest(c.receiveBuffer)))
  }

  lemma DrainFitsEmpty(env: Env, c: Client, socket: nat)
    requires Open(c, socket) && IndexOfNewline(c.receiveBuffer) < 0
    ensures DrainFits(env, c, socket)
  {
    hide HandleMessage, Breaks;
    FramesNext(c.receiveBuffer);
  }

  lemma DrainFitsBlank(env: Env, c: Client, next: Client, socket: nat)
    requires IndexOfNewline(c.receiveBuffer) >= 0 && Blank(StripReturn(c.receiveBuffer[..IndexOfNewline(c.receiveBuffer)]))
    requires next == WithBuffer(c, c.receiveBuffer[IndexOfNewline(c.receiveBuffer) + 1..]) && DrainFits(env, next, socket)
    ensures DrainFits(env, c, socket)
  {
    hide HandleMessage, Blank, StripReturn, Frames, Rest, Careful, AnyBreaks;
    FramesNext(c.receiveBuffer);
    assert Frames(c.receiveBuffer) == Frames(next.receiveBuffer);
    assert Drain(env, c, socket) == Drain(env, next, socket);
    CarefulIgnoresBuffer(env, c, Frames(next.receiveBuffer), socket, next.receiveBuffer);
  }

  lemma DrainFitsLine(env: Env, c: Client, next: Client, line: JsString, socket: nat)
    requires Open(c, socket) && IndexOfNewline(c.receiveBuffer) >= 0 && !Blank(line)
    requires line == StripReturn(c.receiveBuffer[..IndexOfNewline(c.receiveBuffer)])
    requires next == WithBuffer(c, c.receiveBuffer[IndexOfNewline(c.receiveBuffer) + 1..])
    requires var handled := WithBuffer(HandleMessage(env, next, env.decode(line), socket), next.receiveBuffer);
             !Breaks(env, line) ==> DrainFits(env, handled, socket)
    ensures DrainFits(env, c, socket)
  {
    hide HandleMessage, Blank, StripReturn, Frames, Rest, Careful, AnyBreaks, Drain, Breaks;
    var handled := WithBuffer(HandleMessage(env, next, env.decode(line), socket), next.receiveBuffer);
    var later := Frames(next.receiveBuffer);
    FramesNext(c.receiveBuffer);
    assert Frames(c.receiveBuffer) == [line] + later;
    DrainLine(env, c, next, line, later, socket);
    BreaksSplit(env, line, later);
    if !Breaks(env, line) {
      var rest := Rest(c.receiveBuffer);
      assert WithBuffer(Careful(env, c, [line] + later, socket), rest)
          == WithBuffer(Careful(env, handled, later, socket), rest);
    }
  }

  /** Draining an open connection handles the frames of the buffer up to the first that fails. */
  lemma {:induction false} DrainIsCareful(env: Env, c: Client, socket: nat)
    requires Open(c, socket)
    ensures DrainFits(env, c, socket)
    decreases |c.receiveBuffer|
  {
    hide HandleMessage, Blank, StripReturn, FailConnection, Breaks, DrainFits;
    var i := IndexOfNewline(c.receiveBuffer);
    if i < 0 {
      DrainFitsEmpty(env, c, socket);
    } else {
      var line := StripReturn(c.receiveBuffer[..i]);
      var next := WithBuffer(c, c.receiveBuffer[i + 1..]);
      if Blank(line) {
        DrainIsCareful(env, next, socket);
        DrainFitsBlank(env, c, next, socket);
      } else {
        HandleKeepsOpen(env, next, line, socket);
        if !Breaks(env, line) {
          DrainIsCareful(env, WithBuffer(HandleMessage(env, next, env.decode(line), socket), next.receiveBuffer), socket);
        }
        DrainFitsLine(env, c, next, line, socket);
      }
    }
  }

  lemma BreaksSplit(env: Env, line: JsString, later: seq<JsString>)
    ensures AnyBreaks(env, [line] + later) <==> Breaks(env, line) || AnyBreaks(env, later)
  {
    hide Breaks;
    var lines := [line] + later;
    if Breaks(env, line) { assert Breaks(env, lines[0]); }
    if AnyBreaks(env, later) {
      var i :| 0 <= i < |later| && Breaks(env, later[i]);
      assert lines[i + 1] == later[i];
    }
    if AnyBreaks(env, lines) {
      var i :| 0 <= i < |lines| && Breaks(env, lines[i]);
      if i > 0 { assert lines[i] == later[i - 1]; }
    }
  }

  lemma CarefulNext(env: Env, c: Client, line: JsString, later: seq<JsString>, socket: nat)
    ensures var handled := HandleMessage(env, c, env.decode(line), socket);
            Careful(env, c, [line] + later, socket) == if Breaks(env, line) then handled else Careful(env, handled, later, socket)
  {
    hide HandleMessage, Breaks;
    assert ([line] + later)[0] == line && ([line] + later)[1..] == later;
  }

  lemma BufferAside(c: Client, buffer: JsString, socket: nat)
    ensures var d := WithBuffer(c, buffer);
            Core(d) == Core(c) && (Open(d, socket) <==> Open(c, socket)) && (Broken(d, socket) <==> Broken(c, socket))
  {
  }

  lemma BufferTwice(c: Client, a: JsString, b: JsString)
    ensures WithBuffer(WithBuffer(c, a), b) == WithBuffer(c, b)
    ensures WithBuffer(c, a).receiveBuffer == a
  {
  }

  lemma CarefulBuffers(env: Env, c: Client, lines: seq<JsString>, socket: nat, a: JsString)
    ensures forall b :: WithBuffer(Careful(env, WithBuffer(c, a), lines, socket), b) == WithBuffer(Careful(env, c, lines, socket), b)
  {
    hide Careful, WithBuffer;
    CarefulIgnoresBuffer(env, c, lines, socket, a);
    forall b ensures WithBuffer(Careful(env, WithBuffer(c, a), lines, socket), b) == WithBuffer(Careful(env, c, lines, socket), b) {
      BufferTwice(Careful(env, c, lines, socket), a, b);
    }
  }

  /** One line of the drain: it breaks the connection for good, or leads on. */
  lemma DrainLine(env: Env, c: Client, next: Client, line: JsString, later: seq<JsString>, socket: nat)
    requires Open(c, socket) && IndexOfNewline(c.receiveBuffer) >= 0 && !Blank(line)
    requires line == StripReturn(c.receiveBuffer[..IndexOfNewline(c.receiveBuffer)])
    requires next == WithBuffer(c, c.receiveBuffer[IndexOfNewline(c.receiveBuffer) + 1..])
    ensures var handled := WithBuffer(HandleMessage(env, next, env.decode(line), socket), next.receiveBuffer);
            && (Breaks(env, line) ==>
                  Broken(Drain(env, c, socket), socket)
                  && Core(Drain(env, c, socket)) == Core(Careful(env, c, [line] + later, socket)))
            && (!Breaks(env, line) ==>
                  Open(handled, socket) && Drain(env, c, socket) == Drain(env, handled, socket)
                  && (forall buffer :: WithBuffer(Careful(env, c, [line] + later, socket), buffer)
                                       == WithBuffer(Careful(env, handled, later, socket), buffer)))
  {
    OpenSocket(c, socket);
    BreaksNotJson(env, line);
    hide HandleMessage, FailConnection, StripReturn, Blank, Drain, Careful, Breaks, WithBuffer, Open, Broken, Core;
    var m, rest := env.decode(line), c.receiveBuffer[IndexOfNewline(c.receiveBuffer) + 1..];
    BufferTwice(c, rest, rest);
    DrainNext(env, c, socket);
    CarefulNext(env, c, line, later, socket);
    HandleKeepsOpen(env, c, line, socket);
    HandleIgnoresBuffer(env, c, m, socket, rest);
    var h := HandleMessage(env, c, m, socket);
    BufferTwice(h, rest, rest);
    BufferAside(h, rest, socket);
    if m.NotJson? {
      FailIsHandled(env, next, line, socket);
    } else if Breaks(env, line) {
      DrainBroken(env, WithBuffer(h, rest), socket);
    } else {
      CarefulBuffers(env, h, later, socket, rest);
    }
  }

  lemma OpenSocket(c: Client, socket: nat)
    requires Open(c, socket)
    ensures c.socket == Some(socket)
  {
  }

  lemma BreaksNotJson(env: Env, line: JsString)
    ensures env.decode(line).NotJson? ==> Breaks(env, line)
  {
  }

  lemma FailIsHandled(env: Env, c: Client, line: JsString, socket: nat)
    requires env.decode(line).NotJson?
    ensures HandleMessage(env, c, env.decode(line), socket) == FailConnection(c, Protocol, socket)
  {
  }

  function Feed(env: Env, c: Client, chunks: seq<JsString>, socket: nat): Client
    decreases |chunks|
  {
    if chunks == [] then c else Feed(env, Data(env, c, chunks[0], socket), chunks[1..], socket)
  }

  function Joined(chunks: seq<JsString>): JsString {
    if chunks == [] then [] else chunks[0] + Joined(chunks[1..])
  }

  /** No chunk makes the buffer exceed the limit. */
  predicate FitsBuffer(buffer: JsString, chunks: seq<JsString>)
    decreases |chunks|
  {
    chunks == [] || (|Utf8(buffer + chunks[0])| <= MAX_FRAME_BYTES && FitsBuffer(Rest(buffer + chunks[0]), chunks[1..]))
  }

  lemma NewlineStays(s: JsString, more: JsString)
    ensures IndexOfNewline(s) >= 0 ==> IndexOfNewline(s + more) == IndexOfNewline(s)
  {
    var i, k := IndexOfNewline(s), IndexOfNewline(s + more);
    if i >= 0 { assert (s + more)[i] == NEWLINE; }
  }

  /** Framing a longer stream frames what comes first and goes on with what is left. */
  lemma {:induction false} FramesAppend(s: JsString, more: JsString)
    ensures Frames(s + more) == Frames(s) + Frames(Rest(s) + more)
    ensures Rest(s + more) == Rest(Rest(s) + more)
    decreases |s|
  {
    hide Frames, Rest, Blank, StripReturn;
    FramesNext(s);
    FramesNext(s + more);
    var i := IndexOfNewline(s);
    if i >= 0 {
      NewlineStays(s, more);
      assert (s + more)[..i] == s[..i] && (s + more)[i + 1..] == s[i + 1..] + more;
      FramesAppend(s[i + 1..], more);
    }
  }

  lemma {:induction false} FeedBroken(env: Env, c: Client, chunks: seq<JsString>, socket: nat)
    requires Broken(c, socket)
    ensures Feed(env, c, chunks, socket) == c
    decreases |chunks|
  {
    if chunks != [] { FeedBroken(env, c, chunks[1..], socket); }
  }

  lemma {:induction false} CarefulAppend(env: Env, c: Client, a: seq<JsString>, b: seq<JsString>, socket: nat)
    ensures Careful(env, c, a + b, socket)
            == if AnyBreaks(env, a) then Careful(env, c, a, socket) else Careful(env, Careful(env, c, a, socket), b, socket)
    decreases |a|
  {
    hide HandleMessage, Breaks;
    if a == [] {
      assert a + b == b;
    } else {
      assert (a + b)[0] == a[0] && (a + b)[1..] == a[1..] + b;
      assert a == [a[0]] + a[1..];
      BreaksSplit(env, a[0], a[1..]);
      CarefulAppend(env, HandleMessage(env, c, env.decode(a[0]), socket), a[1..], b, socket);
    }
  }

  lemma AnyBreaksAppend(env: Env, a: seq<JsString>, b: seq<JsString>)
    ensures AnyBreaks(env, a + b) <==> AnyBreaks(env, a) || AnyBreaks(env, b)
  {
    hide Breaks;
    if AnyBreaks(env, a) {
      var i :| 0 <= i < |a| && Breaks(env, a[i]);
      assert (a + b)[i] == a[i];
    }
    if AnyBreaks(env, b) {
      var i :| 0 <= i < |b| && Breaks(env, b[i]);
      assert (a + b)[|a| + i] == b[i];
    }
    if AnyBreaks(env, a + b) {
      var i :| 0 <= i < |a + b| && Breaks(env, (a + b)[i]);
      assert if i < |a| then (a + b)[i] == a[i] else (a + b)[i] == b[i - |a|];
    }
  }

  lemma CoreOfCareful(env: Env, c: Client, lines: seq<JsString>, socket: nat, buffer: JsString)
    ensures Core(Careful(env, WithBuffer(c, buffer), lines, socket)) == Core(Careful(env, c, lines, socket))
  {
    hide Careful;
    CarefulIgnoresBuffer(env, c, lines, socket, buffer);
  }

  /** However the stream is cut, while no chunk exceeds the limit the client does with it what handling the frames of
      the whole stream up to the first that fails the connection does: to its requests always, and to everything if
      no frame fails the connection. */
  lemma {:induction false} CutsDoNotMatter(env: Env, c: Client, chunks: seq<JsString>, socket: nat)
    requires Open(c, socket) && FitsBuffer(c.receiveBuffer, chunks) && IndexOfNewline(c.receiveBuffer) < 0
    ensures var lines := Frames(c.receiveBuffer + Joined(chunks));
            && Core(Feed(env, c, chunks, socket)) == Core(Careful(env, c, lines, socket))
            && (!AnyBreaks(env, lines) ==>
                  Feed(env, c, chunks, socket)
                  == WithBuffer(Careful(env, c, lines, socket), Rest(c.receiveBuffer + Joined(chunks))))
    decreases |chunks|
  {
    hide HandleMessage, FailConnection, Breaks, AnyBreaks, Frames, Rest, Careful, Drain, Core, Utf8;
    if chunks == [] {
      assert c.receiveBuffer + Joined(chunks) == c.receiveBuffer;
      FramesNext(c.receiveBuffer);
      NoLines(env, c, socket);
    } else {
      var s, more := c.receiveBuffer + chunks[0], Joined(chunks[1..]);
      assert c.receiveBuffer + Joined(chunks) == s + more;
      FramesAppend(s, more);
      var filled := WithBuffer(c, s);
      var d := Drain(env, filled, socket);
      DrainIsCareful(env, filled, socket);
      CarefulAppend(env, c, Frames(s), Frames(Rest(s) + more), socket);
      AnyBreaksAppend(env, Frames(s), Frames(Rest(s) + more));
      CarefulIgnoresBuffer(env, c, Frames(s), socket, s);
      CoreOfCareful(env, c, Frames(s), socket, s);
      if AnyBreaks(env, Frames(s)) {
        FeedBroken(env, d, chunks[1..], socket);
      } else {
        RestHasNoNewline(s);
        CutsDoNotMatter(env, d, chunks[1..], socket);
        CarefulIgnoresBuffer(env, Careful(env, c, Frames(s), socket), Frames(Rest(s) + more), socket, Rest(s));
        CoreOfCareful(env, Careful(env, c, Frames(s), socket), Frames(Rest(s) + more), socket, Rest(s));
      }
    }
  }

  lemma NoLines(env: Env, c: Client, socket: nat)
    ensures Careful(env, c, [], socket) == c && !AnyBreaks(env, [])
  {
  }

  lemma {:induction false} RestHasNoNewline(s: JsString)
    ensures IndexOfNewline(Rest(s)) < 0
    decreases |s|
  {
    var i := IndexOfNewline(s);
    if i >= 0 { RestHasNoNewline(s[i + 1..]); }
  }

  /** Two cuts of one stream leave the same requests settled in the same way. */
  lemma SameStreamSameRequests(env: Env, c: Client, a: seq<JsString>, b: seq<JsString>, socket: nat)
    requires Open(c, socket) && IndexOfNewline(c.receiveBuffer) < 0 && Joined(a) == Joined(b)
    requires FitsBuffer(c.receiveBuffer, a) && FitsBuffer(c.receiveBuffer, b)
    ensures Core(Feed(env, c, a, socket)) == Core(Feed(env, c, b, socket))
    ensures !AnyBreaks(env, Frames(c.receiveBuffer + Joined(a))) ==> Feed(env, c, a, socket) == Feed(env, c, b, socket)
  {
    hide Feed, Core, Frames, Careful, FitsBuffer, AnyBreaks;
    CutsDoNotMatter(env, c, a, socket);
    CutsDoNotMatter(env, c, b, socket);
  }
}
