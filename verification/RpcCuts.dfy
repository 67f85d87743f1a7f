/** Exactly when the cuts of a character stream can be told apart: by what is handled behind a message that failed the
    connection, because it came in the same chunk. */
module RpcCuts {
  import opened JsStrings
  import opened Wrappers
  import opened RpcClient

  /** Delivered notifications and answered server requests. */
  datatype Shown = Shown(delivered: seq<JsString>, answered: seq<RequestId>)

  function ShownBy(c: Client): Shown { Shown(c.delivered, c.answered) }

  /** The line is delivered or answered. */
  predicate Visible(env: Env, line: JsString) {
    var m := env.decode(line);
    m.Notification? || (m.ServerRequest? && env.answers)
  }

  predicate AnyVisible(env: Env, lines: seq<JsString>) {
    lines != [] && (Visible(env, lines[0]) || AnyVisible(env, lines[1..]))
  }

  function SeeLine(env: Env, s: Shown, line: JsString): Shown {
    if !Visible(env, line) then s
    else match env.decode(line)
         case Notification(text) => s.(delivered := s.delivered + [text])
         case ServerRequest(id) => s.(answered := s.answered + [id])
         case _ => s
  }

  function See(env: Env, s: Shown, lines: seq<JsString>): Shown
    decreases |lines|
  {
    if lines == [] then s else See(env, SeeLine(env, s, lines[0]), lines[1..])
  }

  /** The lines the loop reaches before one that is not JSON. */
  function UntilNotJson(env: Env, lines: seq<JsString>): seq<JsString> {
    if lines == [] || env.decode(lines[0]).NotJson? then [] else [lines[0]] + UntilNotJson(env, lines[1..])
  }

  /** The lines still handled behind the first that fails the connection. */
  function Behind(env: Env, lines: seq<JsString>): seq<JsString> {
    if lines == [] then []
    else if !Breaks(env, lines[0]) then Behind(env, lines[1..])
    else if env.decode(lines[0]).NotJson? then []
    else UntilNotJson(env, lines[1..])
  }

  // ---- what one cut shows ----

  lemma HandleShows(env: Env, c: Client, line: JsString, socket: nat)
    ensures ShownBy(HandleMessage(env, c, env.decode(line), socket)) == SeeLine(env, ShownBy(c), line)
  {
  }

  lemma BufferShows(c: Client, buffer: JsString)
    ensures ShownBy(WithBuffer(c, buffer)) == ShownBy(c)
  {
  }

  /** Whatever the state of the connection, the loop goes on to the first line that is not JSON. */
  lemma {:induction false} DrainShowsAll(env: Env, c: Client, socket: nat)
    ensures ShownBy(Drain(env, c, socket)) == See(env, ShownBy(c), UntilNotJson(env, Frames(c.receiveBuffer)))
    decreases |c.receiveBuffer|
  {
    hide Drain, HandleMessage, FailConnection, Blank, StripReturn, Frames, Visible, ShownBy;
    DrainNext(env, c, socket);
    FramesNext(c.receiveBuffer);
    var i := IndexOfNewline(c.receiveBuffer);
    if i >= 0 {
      var line, next := StripReturn(c.receiveBuffer[..i]), WithBuffer(c, c.receiveBuffer[i + 1..]);
      BufferShows(c, next.receiveBuffer);
      var handled := WithBuffer(HandleMessage(env, next, env.decode(line), socket), next.receiveBuffer);
      HandleShows(env, next, line, socket);
      BufferShows(HandleMessage(env, next, env.decode(line), socket), next.receiveBuffer);
      if Blank(line) {
        DrainShowsAll(env, next, socket);
        assert Frames(c.receiveBuffer) == Frames(next.receiveBuffer);
      } else if env.decode(line).NotJson? {
        FailShows(next, socket);
        assert UntilNotJson(env, Frames(c.receiveBuffer)) == [];
      } else {
        DrainShowsAll(env, handled, socket);
        assert UntilNotJson(env, Frames(c.receiveBuffer)) == [line] + UntilNotJson(env, Frames(next.receiveBuffer));
      }
    }
  }

  lemma FailShows(c: Client, socket: nat)
    ensures ShownBy(FailConnection(c, Protocol, socket)) == ShownBy(c)
  {
  }

  /** Draining shows what handling up to the first failing line shows, and what is behind it in the buffer. */
  lemma {:induction false} DrainShows(env: Env, c: Client, socket: nat)
    ensures var lines := Frames(c.receiveBuffer);
            ShownBy(Drain(env, c, socket)) == See(env, ShownBy(Careful(env, c, lines, socket)), Behind(env, lines))
    decreases |c.receiveBuffer|
  {
    hide Drain, HandleMessage, FailConnection, Blank, StripReturn, Frames, Breaks, Careful, ShownBy, SeeLine;
    var lines := Frames(c.receiveBuffer);
    DrainNext(env, c, socket);
    FramesNext(c.receiveBuffer);
    var i := IndexOfNewline(c.receiveBuffer);
    if i < 0 {
      NoLines(env, c, socket);
    } else {
      var line, next := StripReturn(c.receiveBuffer[..i]), WithBuffer(c, c.receiveBuffer[i + 1..]);
      var later := Frames(next.receiveBuffer);
      if Blank(line) {
        assert lines == later;
        DrainShows(env, next, socket);
        CarefulBufferShows(env, c, later, socket, next.receiveBuffer);
      } else {
        assert lines == [line] + later && lines[0] == line && lines[1..] == later;
        CarefulNext(env, c, line, later, socket);
        LineShows(env, c, next, line, socket);
        var handled := WithBuffer(HandleMessage(env, next, env.decode(line), socket), next.receiveBuffer);
        if env.decode(line).NotJson? {
          FailShows(next, socket);
          BreaksNotJson(env, line);
        } else if Breaks(env, line) {
          DrainShowsAll(env, handled, socket);
        } else {
          DrainShows(env, handled, socket);
          HandleIgnoresBuffer(env, c, env.decode(line), socket, next.receiveBuffer);
          CarefulBufferShows(env, HandleMessage(env, c, env.decode(line), socket), later, socket, next.receiveBuffer);
        }
      }
    }
  }

  lemma CarefulBufferShows(env: Env, c: Client, lines: seq<JsString>, socket: nat, buffer: JsString)
    ensures ShownBy(Careful(env, WithBuffer(c, buffer), lines, socket)) == ShownBy(Careful(env, c, lines, socket))
  {
    hide Careful;
    CarefulIgnoresBuffer(env, c, lines, socket, buffer);
  }

  lemma LineShows(env: Env, c: Client, next: Client, line: JsString, socket: nat)
    requires next == WithBuffer(c, next.receiveBuffer)
    ensures var h, g := HandleMessage(env, next, env.decode(line), socket), HandleMessage(env, c, env.decode(line), socket);
            ShownBy(WithBuffer(h, next.receiveBuffer)) == ShownBy(g)
    ensures ShownBy(next) == ShownBy(c)
    ensures Breaks(env, line) ==> ShownBy(HandleMessage(env, c, env.decode(line), socket)) == ShownBy(c)
  {
    hide HandleMessage;
    HandleIgnoresBuffer(env, c, env.decode(line), socket, next.receiveBuffer);
    HandleShows(env, c, line, socket);
  }

  /** What is handled behind the failure in the chunk that brought it. */
  function Extra(env: Env, buffer: JsString, chunks: seq<JsString>): seq<JsString>
    decreases |chunks|
  {
    if chunks == [] then []
    else
      var filled := buffer + chunks[0];
      if AnyBreaks(env, Frames(filled)) then Behind(env, Frames(filled)) else Extra(env, Rest(filled), chunks[1..])
  }

  /** A cut within the limit shows what the frames up to the first failing one show, and what came with that one. */
  lemma {:induction false} CutShows(env: Env, c: Client, chunks: seq<JsString>, socket: nat)
    requires Open(c, socket) && FitsBuffer(c.receiveBuffer, chunks) && IndexOfNewline(c.receiveBuffer) < 0
    ensures ShownBy(Feed(env, c, chunks, socket))
            == See(env, ShownBy(Careful(env, c, Frames(c.receiveBuffer + Joined(chunks)), socket)), Extra(env, c.receiveBuffer, chunks))
    decreases |chunks|
  {
    hide HandleMessage, FailConnection, Breaks, AnyBreaks, Frames, Rest, Careful, Drain, Utf8, ShownBy, Behind;
    if chunks == [] {
      assert c.receiveBuffer + Joined(chunks) == c.receiveBuffer;
      FramesNext(c.receiveBuffer);
      NoLines(env, c, socket);
    } else {
      var s, more := c.receiveBuffer + chunks[0], Joined(chunks[1..]);
      assert c.receiveBuffer + Joined(chunks) == s + more;
      FramesAppend(s, more);
      var filled := WithBuffer(c, s);
      var d := Drain(env, filled, socket);
      DrainIsCareful(env, filled, socket);
      DrainShows(env, filled, socket);
      CarefulAppend(env, c, Frames(s), Frames(Rest(s) + more), socket);
      CarefulBufferShows(env, c, Frames(s), socket, s);
      if AnyBreaks(env, Frames(s)) {
        FeedBroken(env, d, chunks[1..], socket);
      } else {
        RestHasNoNewline(s);
        CutShows(env, d, chunks[1..], socket);
        CarefulIgnoresBuffer(env, c, Frames(s), socket, s);
        CarefulBufferShows(env, Careful(env, c, Frames(s), socket), Frames(Rest(s) + more), socket, Rest(s));
      }
    }
  }

  function Amount(s: Shown): nat { |s.delivered| + |s.answered| }

  lemma {:induction false} SeeMore(env: Env, s: Shown, lines: seq<JsString>)
    ensures AnyVisible(env, lines) ==> Amount(See(env, s, lines)) > Amount(s)
    ensures Amount(See(env, s, lines)) >= Amount(s)
    ensures !AnyVisible(env, lines) ==> See(env, s, lines) == s
    decreases |lines|
  {
    if lines != [] { SeeMore(env, SeeLine(env, s, lines[0]), lines[1..]); }
  }

  // ---- bytes ----

  function Bytes(s: JsString): nat { |Utf8(s)| }

  function Width(s: JsString): nat
    requires s != []
  {
    if HighSurrogate(s[0]) && |s| >= 2 && LowSurrogate(s[1]) then 2 else 1
  }

  lemma PointsNext(s: JsString)
    requires s != []
    ensures CodePoints(s) == CodePoints(s[..Width(s)]) + CodePoints(s[Width(s)..])
  {
    var head := s[..Width(s)];
    assert head[Width(s)..] == [];
  }

  lemma {:induction false} PointsSplit(a: JsString, b: JsString)
    requires a == [] || a[|a| - 1] == NEWLINE
    ensures CodePoints(a + b) == CodePoints(a) + CodePoints(b)
    decreases |a|
  {
    hide CodePoints;
    if a == [] {
      assert a + b == b && CodePoints(a) == [] by { NoPoints(); }
    } else {
      var n := Width(a);
      assert (a + b)[..n] == a[..n] && (a + b)[n..] == a[n..] + b && Width(a + b) == n;
      PointsNext(a);
      PointsNext(a + b);
      PointsSplit(a[n..], b);
    }
  }

  lemma NoPoints()
    ensures CodePoints([]) == []
  {
  }

  lemma {:induction false} EncodedSplit(a: seq<int>, b: seq<int>)
    requires forall i :: 0 <= i < |a| ==> 0 <= a[i] <= 0x10FFFF
    requires forall i :: 0 <= i < |b| ==> 0 <= b[i] <= 0x10FFFF
    ensures |EncodePoints(a + b)| == |EncodePoints(a)| + |EncodePoints(b)|
    decreases |a|
  {
    hide EncodePoint;
    if a == [] {
      assert a + b == b;
    } else {
      assert (a + b)[1..] == a[1..] + b;
      EncodedSplit(a[1..], b);
    }
  }

  /** A cut behind a newline splits no character. */
  lemma BytesSplit(s: JsString, n: nat)
    requires 0 < n <= |s| && s[n - 1] == NEWLINE
    ensures Bytes(s) == Bytes(s[..n]) + Bytes(s[n..])
  {
    assert s == s[..n] + s[n..];
    PointsSplit(s[..n], s[n..]);
    EncodedSplit(CodePoints(s[..n]), CodePoints(s[n..]));
  }

  // ---- the first line of a stream ----

  predicate HasLine(s: JsString) { IndexOfNewline(s) >= 0 }

  /** The first line with its newline, without its end, and what follows it. */
  function HeadLine(s: JsString): (line: JsString)
    requires HasLine(s)
    ensures line != [] && line[|line| - 1] == NEWLINE
  {
    s[..IndexOfNewline(s) + 1]
  }

  function HeadText(s: JsString): JsString
    requires HasLine(s)
  {
    StripReturn(s[..IndexOfNewline(s)])
  }

  function Later(s: JsString): (later: JsString)
    requires HasLine(s)
    ensures |later| < |s|
  {
    s[IndexOfNewline(s) + 1..]
  }

  lemma HeadAndLater(s: JsString)
    requires HasLine(s)
    ensures s == HeadLine(s) + Later(s) && Bytes(s) == Bytes(HeadLine(s)) + Bytes(Later(s))
    ensures Frames(s) == (if Blank(HeadText(s)) then [] else [HeadText(s)]) + Frames(Later(s))
    ensures Rest(s) == Rest(Later(s))
  {
    hide Frames, Blank, StripReturn, Bytes, Rest;
    FramesNext(s);
    BytesSplit(s, IndexOfNewline(s) + 1);
  }

  lemma NewlineBefore(s: JsString, k: nat)
    requires k < |s| && s[k] == NEWLINE
    ensures 0 <= IndexOfNewline(s) <= k
  {
    var i := IndexOfNewline(s);
    assert i >= 0;
    assert forall j :: 0 <= j < i ==> s[..i][j] == s[j];
  }

  lemma FirstNewline(s: JsString, k: nat)
    requires k < |s| && s[k] == NEWLINE && NEWLINE !in s[..k]
    ensures IndexOfNewline(s) == k
  {
    NewlineBefore(s, k);
    assert forall j :: 0 <= j < k ==> s[..k][j] == s[j];
  }

  lemma HeadStays(s: JsString, more: JsString)
    requires HasLine(s)
    ensures HasLine(s + more) && HeadLine(s + more) == HeadLine(s) && HeadText(s + more) == HeadText(s)
    ensures Later(s + more) == Later(s) + more
  {
    hide StripReturn;
    NewlineStays(s, more);
    var i := IndexOfNewline(s);
    assert (s + more)[..i] == s[..i] && (s + more)[..i + 1] == s[..i + 1];
  }

  lemma HeadAlone(s: JsString)
    requires HasLine(s)
    ensures var head := HeadLine(s);
            HasLine(head) && HeadLine(head) == head && HeadText(head) == HeadText(s) && Later(head) == []
  {
    hide StripReturn;
    var i, head := IndexOfNewline(s), HeadLine(s);
    assert head[..i] == s[..i];
    FirstNewline(head, i);
  }

  /** A stream that starts with a line of another. */
  lemma HeadBefore(s: JsString, more: JsString)
    requires HasLine(s)
    ensures var whole := HeadLine(s) + more;
            && HasLine(whole) && HeadLine(whole) == HeadLine(s) && HeadText(whole) == HeadText(s) && Later(whole) == more
            && Frames(whole) == (if Blank(HeadText(s)) then [] else [HeadText(s)]) + Frames(more)
            && Bytes(whole) == Bytes(HeadLine(s)) + Bytes(more)
  {
    hide HasLine, HeadLine, HeadText, Later, Frames, Blank, Bytes, Rest;
    HeadAlone(s);
    HeadStays(HeadLine(s), more);
    HeadAndLater(HeadLine(s) + more);
  }

  lemma NoLine(env: Env, s: JsString)
    requires !HasLine(s)
    ensures Frames(s) == [] && Rest(s) == s
    ensures !AnyVisible(env, Behind(env, [])) && !AnyVisible(env, UntilNotJson(env, [])) && !AnyBreaks(env, [])
  {
    FramesNext(s);
  }

  lemma UntilNext(env: Env, line: JsString, later: seq<JsString>)
    ensures AnyVisible(env, UntilNotJson(env, [line] + later))
       <==> !env.decode(line).NotJson? && (Visible(env, line) || AnyVisible(env, UntilNotJson(env, later)))
  {
    hide Visible;
    assert ([line] + later)[1..] == later;
    var rest := UntilNotJson(env, later);
    assert ([line] + rest)[0] == line && ([line] + rest)[1..] == rest;
  }

  lemma BehindNext(env: Env, line: JsString, later: seq<JsString>)
    ensures Behind(env, [line] + later)
            == if !Breaks(env, line) then Behind(env, later)
               else if env.decode(line).NotJson? then [] else UntilNotJson(env, later)
  {
    hide Breaks, UntilNotJson;
    assert ([line] + later)[0] == line && ([line] + later)[1..] == later;
  }

  lemma SameFrames(lines: seq<JsString>)
    ensures [] + lines == lines
  {
  }

  // ---- what some cut shows ----

  /** Before a line that is not JSON, something visible ends within the given number of bytes. */
  predicate ShowsWithin(env: Env, s: JsString, room: int)
    decreases |s|
  {
    && HasLine(s)
    && Bytes(HeadLine(s)) <= room
    && var line, left := HeadText(s), room - Bytes(HeadLine(s));
       if Blank(line) then ShowsWithin(env, Later(s), left)
       else !env.decode(line).NotJson? && (Visible(env, line) || ShowsWithin(env, Later(s), left))
  }

  /** The first line that fails the connection is JSON, and something visible behind it, before a line that is not JSON,
      fits with it into one buffer. */
  predicate Exposed(env: Env, s: JsString)
    decreases |s|
  {
    && HasLine(s)
    && var line := HeadText(s);
       if Blank(line) || !Breaks(env, line) then Exposed(env, Later(s))
       else !env.decode(line).NotJson? && ShowsWithin(env, Later(s), MAX_FRAME_BYTES - Bytes(HeadLine(s)))
  }

  lemma {:induction false} WithinShows(env: Env, s: JsString, room: int)
    ensures ShowsWithin(env, s, room) ==> AnyVisible(env, UntilNotJson(env, Frames(s)))
    ensures AnyVisible(env, UntilNotJson(env, Frames(s))) && Bytes(s) <= room ==> ShowsWithin(env, s, room)
    decreases |s|
  {
    hide HasLine, HeadLine, HeadText, Later, Frames, Blank, Bytes, Visible, AnyVisible, UntilNotJson, Rest, Behind, AnyBreaks;
    if HasLine(s) {
      HeadAndLater(s);
      WithinShows(env, Later(s), room - Bytes(HeadLine(s)));
      UntilNext(env, HeadText(s), Frames(Later(s)));
      SameFrames(Frames(Later(s)));
    } else {
      NoLine(env, s);
    }
  }

  lemma {:induction false} ExposedShows(env: Env, s: JsString)
    ensures Exposed(env, s) ==> AnyVisible(env, Behind(env, Frames(s)))
    ensures AnyVisible(env, Behind(env, Frames(s))) && Bytes(s) <= MAX_FRAME_BYTES ==> Exposed(env, s)
    decreases |s|
  {
    hide HasLine, HeadLine, HeadText, Later, Frames, Blank, Bytes, Breaks, AnyVisible, UntilNotJson, Rest, Behind, AnyBreaks, ShowsWithin;
    if HasLine(s) {
      HeadAndLater(s);
      ExposedShows(env, Later(s));
      WithinShows(env, Later(s), MAX_FRAME_BYTES - Bytes(HeadLine(s)));
      BehindNext(env, HeadText(s), Frames(Later(s)));
      SameFrames(Frames(Later(s)));
      NothingVisible(env);
    } else {
      NoLine(env, s);
    }
  }

  lemma NothingVisible(env: Env)
    ensures !AnyVisible(env, [])
  {
  }

  lemma {:induction false} WithinStays(env: Env, s: JsString, more: JsString, room: int)
    requires ShowsWithin(env, s, room)
    ensures ShowsWithin(env, s + more, room)
    decreases |s|
  {
    hide HasLine, HeadLine, HeadText, Later, Blank, Bytes, Visible;
    HeadStays(s, more);
    var line := HeadText(s);
    if Blank(line) || !Visible(env, line) { WithinStays(env, Later(s), more, room - Bytes(HeadLine(s))); }
  }

  lemma {:induction false} ExposedStays(env: Env, s: JsString, more: JsString)
    requires Exposed(env, s)
    ensures Exposed(env, s + more)
    decreases |s|
  {
    hide HasLine, HeadLine, HeadText, Later, Blank, Bytes, Breaks, ShowsWithin;
    HeadStays(s, more);
    var line := HeadText(s);
    if Blank(line) || !Breaks(env, line) {
      ExposedStays(env, Later(s), more);
    } else {
      WithinStays(env, Later(s), more, MAX_FRAME_BYTES - Bytes(HeadLine(s)));
    }
  }

  /** Lines that do not fail the connection expose nothing. */
  lemma {:induction false} ExposedSkips(env: Env, s: JsString, more: JsString)
    requires !AnyBreaks(env, Frames(s))
    ensures Exposed(env, s + more) <==> Exposed(env, Rest(s) + more)
    decreases |s|
  {
    hide HasLine, HeadLine, HeadText, Later, Frames, Blank, Bytes, Breaks, AnyBreaks, ShowsWithin, Rest, Behind, AnyVisible, UntilNotJson;
    if HasLine(s) {
      HeadStays(s, more);
      HeadAndLater(s);
      BreaksSplit(env, HeadText(s), Frames(Later(s)));
      SameFrames(Frames(Later(s)));
      ExposedSkips(env, Later(s), more);
    } else {
      NoLine(env, s);
    }
  }

  /** What a cut within the limit shows behind the failure is exposed. */
  lemma {:induction false} FittingIsExposed(env: Env, buffer: JsString, chunks: seq<JsString>)
    requires FitsBuffer(buffer, chunks) && AnyVisible(env, Extra(env, buffer, chunks))
    ensures Exposed(env, buffer + Joined(chunks))
    decreases |chunks|
  {
    hide Frames, Breaks, AnyBreaks, Rest, Behind, Exposed, Utf8;
    NothingVisible(env);
    var s, more := buffer + chunks[0], Joined(chunks[1..]);
    assert buffer + Joined(chunks) == s + more;
    if AnyBreaks(env, Frames(s)) {
      ExposedShows(env, s);
      assert Bytes(s) <= MAX_FRAME_BYTES;
      ExposedStays(env, s, more);
    } else {
      FittingIsExposed(env, Rest(s), chunks[1..]);
      ExposedSkips(env, s, more);
    }
  }

  // ---- two cuts of an exposed stream that differ ----

  /** Each line with its newline, and what follows the last, fits into the buffer. */
  predicate LinesFit(s: JsString)
    decreases |s|
  {
    if HasLine(s) then Bytes(HeadLine(s)) <= MAX_FRAME_BYTES && LinesFit(Later(s)) else Bytes(s) <= MAX_FRAME_BYTES
  }

  lemma {:induction false} LinesFitAppend(env: Env, s: JsString, more: JsString)
    requires Bytes(s) <= MAX_FRAME_BYTES && (more == [] || LinesFit(Rest(s) + more))
    ensures LinesFit(s + more)
    decreases |s|
  {
    hide HasLine, HeadLine, HeadText, Later, Frames, Blank, Bytes, Rest, Behind, AnyVisible, UntilNotJson, AnyBreaks;
    if HasLine(s) {
      HeadStays(s, more);
      HeadAndLater(s);
      LinesFitAppend(env, Later(s), more);
    } else {
      NoLine(env, s);
      if more == [] { assert s + more == s; }
    }
  }

  lemma {:induction false} FittingLines(env: Env, buffer: JsString, chunks: seq<JsString>)
    requires FitsBuffer(buffer, chunks) && chunks != []
    ensures LinesFit(buffer + Joined(chunks))
    decreases |chunks|
  {
    hide Rest, LinesFit, Utf8;
    var s, more := buffer + chunks[0], Joined(chunks[1..]);
    assert buffer + Joined(chunks) == s + more;
    assert Bytes(s) <= MAX_FRAME_BYTES;
    if chunks[1..] != [] { FittingLines(env, Rest(s), chunks[1..]); }
    LinesFitAppend(env, s, more);
  }

  /** A cut of a stream from an empty buffer whose first chunk holds the first line. */
  ghost predicate Cuts(s: JsString, chunks: seq<JsString>) {
    && Joined(chunks) == s
    && FitsBuffer([], chunks)
    && (HasLine(s) ==> chunks != [] && |chunks[0]| > IndexOfNewline(s))
  }

  function LineByLine(s: JsString): seq<JsString>
    decreases |s|
  {
    if HasLine(s) then [HeadLine(s)] + LineByLine(Later(s)) else if s == [] then [] else [s]
  }

  /** A chunk of whole lines in front of a cut. */
  lemma CutsNext(env: Env, lines: JsString, s: JsString, chunks: seq<JsString>)
    requires lines != [] && lines[|lines| - 1] == NEWLINE && Bytes(lines) <= MAX_FRAME_BYTES && Cuts(s, chunks)
    ensures Cuts(lines + s, [lines] + chunks)
    ensures Extra(env, [], [lines] + chunks)
            == if AnyBreaks(env, Frames(lines)) then Behind(env, Frames(lines)) else Extra(env, [], chunks)
  {
    hide Frames, Rest, AnyBreaks, Behind, Utf8;
    var all := [lines] + chunks;
    assert all[0] == lines && all[1..] == chunks && [] + lines == lines;
    RestEmpty(lines);
    NewlineBefore(lines + s, |lines| - 1);
  }

  lemma {:induction false} RestEmpty(s: JsString)
    requires s != [] && s[|s| - 1] == NEWLINE
    ensures Rest(s) == []
    decreases |s|
  {
    var i := IndexOfNewline(s);
    if i + 1 < |s| { RestEmpty(s[i + 1..]); }
  }

  lemma OneLineBreaks(env: Env, s: JsString)
    requires HasLine(s)
    ensures var line := HeadText(s);
            && (AnyBreaks(env, Frames(HeadLine(s))) <==> !Blank(line) && Breaks(env, line))
            && !AnyVisible(env, Behind(env, Frames(HeadLine(s))))
  {
    hide HasLine, HeadLine, HeadText, Later, Frames, Blank, Bytes, Breaks, AnyBreaks, Rest, Behind, AnyVisible, UntilNotJson;
    var line := HeadText(s);
    HeadBefore(s, []);
    assert HeadLine(s) + [] == HeadLine(s);
    EmptyHasNoLine();
    NoLine(env, []);
    BreaksSplit(env, line, []);
    BehindNext(env, line, []);
    NothingVisible(env);
    assert [line] + [] == [line];
  }

  lemma EmptyHasNoLine()
    ensures !HasLine([])
  {
  }

  /** Line by line, nothing comes with the failure. */
  lemma {:induction false} QuietCut(env: Env, s: JsString)
    requires LinesFit(s)
    ensures Cuts(s, LineByLine(s)) && !AnyVisible(env, Extra(env, [], LineByLine(s)))
    decreases |s|
  {
    hide HasLine, HeadLine, HeadText, Later, Frames, Blank, Bytes, Breaks, AnyBreaks, Rest, Behind, AnyVisible, Cuts, Extra;
    if HasLine(s) {
      HeadAndLater(s);
      QuietCut(env, Later(s));
      OneLineBreaks(env, s);
      CutsNext(env, HeadLine(s), Later(s), LineByLine(Later(s)));
    } else {
      LastCut(env, s);
    }
  }

  lemma LastCut(env: Env, s: JsString)
    requires !HasLine(s) && Bytes(s) <= MAX_FRAME_BYTES
    ensures Cuts(s, if s == [] then [] else [s])
    ensures !AnyVisible(env, Extra(env, [], if s == [] then [] else [s]))
  {
    hide Frames, Rest, Behind, AnyBreaks, UntilNotJson;
    NoLine(env, s);
    NothingVisible(env);
    if s != [] {
      assert [s][1..] == [] && [] + s == s;
      Joins(s, []);
      FitsOne(s);
    }
  }

  /** The shortest piece of the stream that shows something, and what follows it. */
  lemma {:induction false} ShowingPiece(env: Env, s: JsString, room: int) returns (piece: JsString, later: JsString)
    requires ShowsWithin(env, s, room)
    ensures s == piece + later && piece != [] && piece[|piece| - 1] == NEWLINE && Bytes(piece) <= room
    ensures AnyVisible(env, UntilNotJson(env, Frames(piece)))
    ensures LinesFit(s) ==> LinesFit(later)
    decreases |s|
  {
    hide HasLine, HeadLine, HeadText, Later, Frames, Blank, Bytes, Visible, AnyVisible, UntilNotJson, Rest;
    var line := HeadText(s);
    HeadAndLater(s);
    if !Blank(line) && Visible(env, line) {
      piece, later := HeadLine(s), Later(s);
      HeadBefore(s, []);
      assert HeadLine(s) + [] == HeadLine(s);
      UntilNext(env, line, Frames([]));
    } else {
      var more;
      more, later := ShowingPiece(env, Later(s), room - Bytes(HeadLine(s)));
      piece := HeadLine(s) + more;
      assert s == piece + later by { Regroup(HeadLine(s), more, later); }
      HeadBefore(s, more);
      UntilNext(env, line, Frames(more));
      SameFrames(Frames(more));
    }
  }

  lemma Regroup(a: JsString, b: JsString, c: JsString)
    ensures a + (b + c) == (a + b) + c
  {
  }

  /** A cut in which something visible comes with the failure. */
  lemma {:induction false} ShowingCut(env: Env, s: JsString) returns (chunks: seq<JsString>)
    requires LinesFit(s) && Exposed(env, s)
    ensures Cuts(s, chunks) && AnyVisible(env, Extra(env, [], chunks))
    decreases |s|
  {
    hide HasLine, HeadLine, HeadText, Later, Frames, Blank, Bytes, Breaks, AnyBreaks, Rest, Behind, AnyVisible, UntilNotJson, Cuts, Extra,
      ShowsWithin;
    var line := HeadText(s);
    HeadAndLater(s);
    if Blank(line) || !Breaks(env, line) {
      var rest := ShowingCut(env, Later(s));
      chunks := [HeadLine(s)] + rest;
      OneLineBreaks(env, s);
      CutsNext(env, HeadLine(s), Later(s), rest);
    } else {
      var piece, later := ShowingPiece(env, Later(s), MAX_FRAME_BYTES - Bytes(HeadLine(s)));
      var first := HeadLine(s) + piece;
      chunks := [first] + LineByLine(later);
      assert s == first + later by { Regroup(HeadLine(s), piece, later); }
      QuietCut(env, later);
      HeadBefore(s, piece);
      BreaksSplit(env, line, Frames(piece));
      BehindNext(env, line, Frames(piece));
      CutsNext(env, first, later, LineByLine(later));
    }
  }

  /** What the buffer already holds can be left out of the first chunk. */
  lemma Rebuffered(env: Env, buffer: JsString, s: JsString, chunks: seq<JsString>) returns (cut: seq<JsString>)
    requires Cuts(buffer + s, chunks) && IndexOfNewline(buffer) < 0 && HasLine(buffer + s)
    ensures Joined(cut) == s && FitsBuffer(buffer, cut) && Extra(env, buffer, cut) == Extra(env, [], chunks)
  {
    hide Frames, Rest, AnyBreaks, Behind, Utf8, FitsBuffer, Extra;
    BufferIsShort(buffer, s);
    SplitAfter(buffer, s, chunks[0], Joined(chunks[1..]));
    cut := [chunks[0][|buffer|..]] + chunks[1..];
    assert cut[1..] == chunks[1..];
    SameFilled(env, buffer, cut, chunks);
  }

  lemma BufferIsShort(buffer: JsString, s: JsString)
    requires IndexOfNewline(buffer) < 0 && HasLine(buffer + s)
    ensures |buffer| <= IndexOfNewline(buffer + s)
  {
    var all := buffer + s;
    assert all[IndexOfNewline(all)] == NEWLINE && NEWLINE !in buffer;
    assert forall j :: 0 <= j < |buffer| ==> all[j] == buffer[j];
  }

  lemma SplitAfter(a: JsString, b: JsString, x: JsString, y: JsString)
    requires a + b == x + y && |a| <= |x|
    ensures a + x[|a|..] == x && x[|a|..] + y == b
  {
    assert x[..|a|] == (x + y)[..|a|] == (a + b)[..|a|] == a;
    assert b == (a + b)[|a|..] == (x + y)[|a|..] == x[|a|..] + y;
  }

  lemma SameFilled(env: Env, buffer: JsString, a: seq<JsString>, b: seq<JsString>)
    requires a != [] && b != [] && buffer + a[0] == b[0] && a[1..] == b[1..]
    ensures FitsBuffer(buffer, a) <==> FitsBuffer([], b)
    ensures Extra(env, buffer, a) == Extra(env, [], b)
  {
    hide Frames, Rest, AnyBreaks, Behind, Utf8;
    assert [] + b[0] == b[0];
  }

  // ---- the exact condition ----

  ghost predicate Cut(c: Client, stream: JsString, chunks: seq<JsString>) {
    Joined(chunks) == stream && FitsBuffer(c.receiveBuffer, chunks)
  }

  /** If a stream can be cut within the limit at all, all such cuts leave the same delivered notifications and answered
      requests exactly when nothing visible can come in one buffer with the message that fails the connection. */
  lemma AllCutsAgreeExactly(env: Env, c: Client, chunks: seq<JsString>, socket: nat)
    requires Open(c, socket) && IndexOfNewline(c.receiveBuffer) < 0 && FitsBuffer(c.receiveBuffer, chunks)
    ensures (forall other :: Cut(c, Joined(chunks), other)
                             ==> ShownBy(Feed(env, c, other, socket)) == ShownBy(Feed(env, c, chunks, socket)))
       <==> !Exposed(env, c.receiveBuffer + Joined(chunks))
  {
    hide ShownBy, Feed, FitsBuffer, Exposed, Careful, Extra, Frames, LinesFit, Cuts, See;
    var stream, whole := Joined(chunks), c.receiveBuffer + Joined(chunks);
    var base := ShownBy(Careful(env, c, Frames(whole), socket));
    if !Exposed(env, whole) {
      forall other | Cut(c, stream, other) ensures ShownBy(Feed(env, c, other, socket)) == base {
        QuietFeed(env, c, other, socket);
      }
    } else {
      if chunks == [] {
        assert whole == c.receiveBuffer;
        ExposedHasLine(env, whole);
      }
      FittingLines(env, c.receiveBuffer, chunks);
      var quiet, showing := TwoCuts(env, c, stream);
      CutShows(env, c, quiet, socket);
      CutShows(env, c, showing, socket);
      SeeMore(env, base, Extra(env, c.receiveBuffer, quiet));
      SeeMore(env, base, Extra(env, c.receiveBuffer, showing));
      assert Cut(c, stream, quiet) && Cut(c, stream, showing);
      assert ShownBy(Feed(env, c, quiet, socket)) != ShownBy(Feed(env, c, showing, socket));
    }
  }

  lemma ExposedHasLine(env: Env, s: JsString)
    requires Exposed(env, s)
    ensures HasLine(s)
  {
  }

  lemma QuietFeed(env: Env, c: Client, chunks: seq<JsString>, socket: nat)
    requires Open(c, socket) && IndexOfNewline(c.receiveBuffer) < 0 && FitsBuffer(c.receiveBuffer, chunks)
    requires !Exposed(env, c.receiveBuffer + Joined(chunks))
    ensures ShownBy(Feed(env, c, chunks, socket)) == ShownBy(Careful(env, c, Frames(c.receiveBuffer + Joined(chunks)), socket))
  {
    hide ShownBy, Feed, FitsBuffer, Exposed, Careful, Extra, Frames, See;
    CutShows(env, c, chunks, socket);
    if AnyVisible(env, Extra(env, c.receiveBuffer, chunks)) { FittingIsExposed(env, c.receiveBuffer, chunks); }
    SeeMore(env, ShownBy(Careful(env, c, Frames(c.receiveBuffer + Joined(chunks)), socket)), Extra(env, c.receiveBuffer, chunks));
  }

  lemma TwoCuts(env: Env, c: Client, stream: JsString) returns (quiet: seq<JsString>, showing: seq<JsString>)
    requires IndexOfNewline(c.receiveBuffer) < 0 && LinesFit(c.receiveBuffer + stream) && Exposed(env, c.receiveBuffer + stream)
    ensures Cut(c, stream, quiet) && !AnyVisible(env, Extra(env, c.receiveBuffer, quiet))
    ensures Cut(c, stream, showing) && AnyVisible(env, Extra(env, c.receiveBuffer, showing))
  {
    hide FitsBuffer, Exposed, Extra, LinesFit, Cuts;
    var whole := c.receiveBuffer + stream;
    ExposedHasLine(env, whole);
    QuietCut(env, whole);
    quiet := Rebuffered(env, c.receiveBuffer, stream, LineByLine(whole));
    var chunks := ShowingCut(env, whole);
    showing := Rebuffered(env, c.receiveBuffer, stream, chunks);
  }

  /** When the whole stream fits into the buffer: all cuts agree exactly when no notification, and no server request
      that is answered, lies behind the first message that fails the connection and before a line that is not JSON. */
  lemma FittingStreamExactly(env: Env, c: Client, stream: JsString, socket: nat)
    requires Open(c, socket) && IndexOfNewline(c.receiveBuffer) < 0 && Bytes(c.receiveBuffer + stream) <= MAX_FRAME_BYTES
    ensures (forall a, b :: Cut(c, stream, a) && Cut(c, stream, b)
                            ==> ShownBy(Feed(env, c, a, socket)) == ShownBy(Feed(env, c, b, socket)))
       <==> !AnyVisible(env, Behind(env, Frames(c.receiveBuffer + stream)))
  {
    hide ShownBy, Feed, Exposed, Frames, Behind, Rest, Utf8;
    var whole: seq<JsString> := [stream];
    assert whole[1..] == [] && Joined(whole) == stream + [] == stream;
    assert FitsBuffer(Rest(c.receiveBuffer + stream), []);
    assert Cut(c, stream, whole);
    AllCutsAgreeExactly(env, c, whole, socket);
    ExposedShows(env, c.receiveBuffer + stream);
  }

  // ---- one stream, two cuts ----

  /** A message of the wrong shape and a notification behind it: delivered when both come in one chunk, not delivered
      when they come in two. `1` and `{"method":"m"}` are such lines. */
  lemma CutShowsBehindFailure(env: Env, c: Client, x: JsString, y: JsString, socket: nat)
    requires Open(c, socket) && c.receiveBuffer == [] && Bytes(x + [NEWLINE] + y + [NEWLINE]) <= MAX_FRAME_BYTES
    requires NEWLINE !in x && NEWLINE !in y && !Blank(StripReturn(x)) && !Blank(StripReturn(y))
    requires env.decode(StripReturn(x)).Malformed? && env.decode(StripReturn(y)).Notification?
    ensures Feed(env, c, [x + [NEWLINE] + y + [NEWLINE]], socket).delivered == c.delivered + [env.decode(StripReturn(y)).text]
    ensures Feed(env, c, [x + [NEWLINE], y + [NEWLINE]], socket).delivered == c.delivered
  {
    hide Feed, Blank, StripReturn, Frames, Bytes, HandleMessage, Rest, FitsBuffer, Extra, Joined, Careful, See, Behind;
    var first, second, whole := x + [NEWLINE], y + [NEWLINE], x + [NEWLINE] + y + [NEWLINE];
    TwoFrames(x, y);
    assert [] + whole == whole && whole == first + second;
    Joins(first, second);
    Joins(whole, []);
    FitsTwo(first, second);
    FitsOne(whole);
    CutShows(env, c, [whole], socket);
    CutShows(env, c, [first, second], socket);
    FailingPair(env, c, StripReturn(x), StripReturn(y), socket);
    ExtraFirst(env, whole, []);
    ExtraFirst(env, first, [second]);
    assert [first, second] == [first] + [second] && [whole] == [whole] + [];
  }

  lemma TwoFrames(x: JsString, y: JsString)
    requires NEWLINE !in x && NEWLINE !in y && !Blank(StripReturn(x)) && !Blank(StripReturn(y))
    ensures var first, second := x + [NEWLINE], y + [NEWLINE];
            && Frames(first) == [StripReturn(x)] && Frames(first + second) == [StripReturn(x)] + [StripReturn(y)]
            && Rest(first) == [] && Bytes(first + second) == Bytes(first) + Bytes(second)
  {
    hide Blank, StripReturn, Frames, Rest, Bytes;
    var first, second := x + [NEWLINE], y + [NEWLINE];
    LineFrames(x);
    LineFrames(y);
    FramesAppend(first, second);
    RestEmpty(first);
    assert [] + second == second;
    BytesSplit(first + second, |first|);
    assert (first + second)[..|first|] == first && (first + second)[|first|..] == second;
  }

  lemma LineFrames(x: JsString)
    requires NEWLINE !in x && !Blank(StripReturn(x))
    ensures Frames(x + [NEWLINE]) == [StripReturn(x)] && IndexOfNewline(x + [NEWLINE]) == |x|
  {
    hide Blank, StripReturn, Frames;
    var s := x + [NEWLINE];
    assert s[..|x|] == x && s[..|x| + 1] == s && s[|x| + 1..] == [];
    FirstNewline(s, |x|);
    FramesNext(s);
    FramesNext([]);
  }

  lemma Joins(a: JsString, b: JsString)
    ensures Joined([a, b]) == a + b && Joined([a]) == a
  {
    assert [a, b][1..] == [b] && [b][1..] == [] && [a][1..] == [];
    assert Joined([b]) == b + [] == b && Joined([a]) == a + [] == a;
  }

  lemma FitsOne(a: JsString)
    requires Bytes(a) <= MAX_FRAME_BYTES
    ensures FitsBuffer([], [a])
  {
    hide Rest;
    assert [] + a == a && [a][1..] == [];
  }

  lemma FitsTwo(a: JsString, b: JsString)
    requires Bytes(a) <= MAX_FRAME_BYTES && Bytes(b) <= MAX_FRAME_BYTES && Rest(a) == []
    ensures FitsBuffer([], [a, b])
  {
    hide Rest;
    assert [] + a == a && [a, b][1..] == [b];
    FitsOne(b);
  }

  lemma ExtraFirst(env: Env, chunk: JsString, chunks: seq<JsString>)
    requires AnyBreaks(env, Frames(chunk))
    ensures Extra(env, [], [chunk] + chunks) == Behind(env, Frames(chunk))
  {
    hide Frames, AnyBreaks, Behind;
    assert ([chunk] + chunks)[0] == chunk && [] + chunk == chunk;
  }

  lemma FailingPair(env: Env, c: Client, x: JsString, y: JsString, socket: nat)
    requires env.decode(x).Malformed? && env.decode(y).Notification?
    ensures AnyBreaks(env, [x]) && AnyBreaks(env, [x] + [y])
    ensures Behind(env, [x]) == [] && Behind(env, [x] + [y]) == [y]
    ensures Careful(env, c, [x] + [y], socket).delivered == c.delivered
    ensures forall s :: See(env, s, []) == s && See(env, s, [y]) == s.(delivered := s.delivered + [env.decode(y).text])
  {
    assert Breaks(env, [x][0]) && Breaks(env, ([x] + [y])[0]);
    assert ([x] + [y])[1..] == [y] && [x][1..] == [] && [y][1..] == [];
    CarefulNext(env, c, x, [y], socket);
  }
}
