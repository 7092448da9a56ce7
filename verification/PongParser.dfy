/** The incremental parser of HTTP responses: what it makes of a stream does not depend on how the stream arrives. */
module PongParser {
  import opened Wrappers
  import opened PongPool

  const CR: Byte := 13
  const LF: Byte := 10
  const CRLF: seq<Byte> := [CR, LF]
  const CONTENT_LENGTH: seq<Byte> :=   // "Content-Length: "
    [67, 111, 110, 116, 101, 110, 116, 45, 76, 101, 110, 103, 116, 104, 58, 32]
  const BUFSIZ: nat := 8192

  /** What the library makes of text: the status in a status line (sscanf), the number at the start of one (strtoul). */
  datatype Syntax = Syntax(status: seq<Byte> -> Option<int>, number: seq<Byte> -> nat)

  /** The parsing fields of an `http_connection`; `buf` is the part of the buffer that is filled. */
  datatype Conn = Conn(state: HttpState, code: int, length: nat, hasLength: bool, buf: seq<Byte>)

  /** As http_send_request leaves it. */
  const SENT: Conn := Conn(INITIAL, -1, 0, false, [])

  predicate InHead(c: Conn) { c.state.INITIAL? || c.state.HEADERS? }

  function Append(c: Conn, b: seq<Byte>): Conn { c.(buf := c.buf + b) }

  // http_consume_headers

  predicate CrlfAt(b: seq<Byte>, i: nat) { i + 2 <= |b| && b[i] == CR && b[i + 1] == LF }

  function FirstCrlf(b: seq<Byte>, from: nat := 0): (r: Option<nat>)
    ensures r.Some? ==> from <= r.value && CrlfAt(b, r.value)
    ensures forall i: nat :: from <= i && (r.Some? ==> i < r.value) ==> !CrlfAt(b, i)
    decreases if from <= |b| then |b| - from else 0
  {
    if from + 2 > |b| then None else
    if CrlfAt(b, from) then Some(from) else FirstCrlf(b, from + 1)
  }

  /** The line before position i is taken in and removed. */
  function TakeLine(x: Syntax, c: Conn, i: nat): Conn
    requires i + 2 <= |c.buf|
  {
    var line, rest := c.buf[..i], c.(buf := c.buf[i + 2..]);
    if c.state.INITIAL? then
      match x.status(line)
      case Some(code) => rest.(state := HEADERS, code := code)
      case None => rest.(state := BROKEN)
    else if i == 0 then rest.(state := BODY)
    else if CONTENT_LENGTH <= line then rest.(length := x.number(line[16..]), hasLength := true)
    else rest
  }

  /** All complete lines of the head are taken in. */
  function Drain(x: Syntax, c: Conn): Conn
    decreases |c.buf|
  {
    if !InHead(c) || FirstCrlf(c.buf).None? then c else Drain(x, TakeLine(x, c, FirstCrlf(c.buf).value))
  }

  function Finish(c: Conn, eof: bool): Conn {
    var c' := if c.state.BODY? && (c.hasLength || eof) && |c.buf| >= c.length then c.(state := DONE) else c;
    if !eof then c' else c'.(state := if c'.state.DONE? then CLOSED else BROKEN)
  }

  function Consume(x: Syntax, c: Conn, eof: bool): Conn {
    Finish(Drain(x, c), eof)
  }

  // http_receive_response

  /** What one call of read brings: some bytes, nothing because it was interrupted, or the end of the stream. */
  datatype Arrival = Data(bytes: seq<Byte>) | Nothing | Eof

  datatype Reception = Complete(c: Conn) | Waiting(c: Conn) | Overflow

  /** The receiving loop; Waiting means that it blocks in its next read, Overflow that its assertion fails. */
  function Receive(x: Syntax, c: Conn, eof: bool, arrivals: seq<Arrival>): Reception
    decreases |arrivals|
  {
    var c' := Consume(x, c, eof);
    if c'.state.Finished() then Complete(c') else
    if |c'.buf| >= 49 * BUFSIZ then Overflow else
    if arrivals == [] then Waiting(c') else
    match arrivals[0]
    case Data(b) => Receive(x, Append(c', b), eof, arrivals[1..])
    case Nothing => Receive(x, c', eof, arrivals[1..])
    case Eof => Receive(x, c', true, arrivals[1..])
  }

  /** The bytes that arrive before the end of the stream. */
  function Stream(arrivals: seq<Arrival>): seq<Byte> {
    if arrivals == [] || arrivals[0].Eof? then [] else
    (if arrivals[0].Data? then arrivals[0].bytes else []) + Stream(arrivals[1..])
  }

  function Closed(arrivals: seq<Arrival>): bool {
    arrivals != [] && (arrivals[0].Eof? || Closed(arrivals[1..]))
  }

  /** The reference: the whole stream at once, and its end only if the response is still incomplete. */
  function OnePass(x: Syntax, c: Conn, stream: seq<Byte>, closed: bool): Conn {
    var open := Consume(x, Append(c, stream), false);
    if open.state.Finished() || !closed then open else Consume(x, Append(c, stream), true)
  }

  // Chunk independence

  lemma FirstCrlfOfAppend(a: seq<Byte>, b: seq<Byte>)
    requires FirstCrlf(a).Some?
    ensures FirstCrlf(a + b) == FirstCrlf(a)
  {
    var i := FirstCrlf(a).value;
    assert CrlfAt(a + b, i);
    forall j: nat | j < i ensures !CrlfAt(a + b, j) {
      assert !CrlfAt(a, j);
    }
  }

  /** Taking in lines early makes no difference to what can be taken in later. */
  lemma {:induction false} DrainAppend(x: Syntax, c: Conn, b: seq<Byte>)
    ensures Drain(x, Append(Drain(x, c), b)) == Drain(x, Append(c, b))
    decreases |c.buf|
  {
    if InHead(c) && FirstCrlf(c.buf).Some? {
      var i := FirstCrlf(c.buf).value;
      FirstCrlfOfAppend(c.buf, b);
      assert (c.buf + b)[..i] == c.buf[..i] && (c.buf + b)[i + 2..] == c.buf[i + 2..] + b;
      assert TakeLine(x, Append(c, b), i) == Append(TakeLine(x, c, i), b);
      DrainAppend(x, TakeLine(x, c, i), b);
    }
  }

  /** A response that was complete stays so, with the same head, and more bytes only lengthen what follows it. */
  lemma CompleteStays(x: Syntax, c: Conn, b: seq<Byte>)
    requires Consume(x, c, false).state.Finished()
    ensures Consume(x, Append(c, b), false) == Append(Consume(x, c, false), b)
  {
    DrainAppend(x, c, b);
  }

  /** Reading on after an incomplete look at the buffer is as good as not having looked. */
  lemma LookingIsFree(x: Syntax, c: Conn, b: seq<Byte>, eof: bool)
    requires !Consume(x, c, false).state.Finished()
    ensures Consume(x, Append(Consume(x, c, false), b), eof) == Consume(x, Append(c, b), eof)
  {
    DrainAppend(x, c, b);
  }

  predicate SameResponse(r: Conn, whole: Conn) {
    && r.state == whole.state && r.code == whole.code
    && r.length == whole.length && r.hasLength == whole.hasLength
    && r.buf <= whole.buf
    && (r.state.DONE? || r.state.CLOSED? ==> |r.buf| >= r.length)
  }

  ghost predicate AgreesWithOnePass(x: Syntax, c: Conn, arrivals: seq<Arrival>, r: Reception) {
    var whole := OnePass(x, c, Stream(arrivals), Closed(arrivals));
    match r
    case Complete(c') => whole.state.Finished() && SameResponse(c', whole)
    case Waiting(c') => !whole.state.Finished() && c' == whole
    case Overflow => |c.buf| + |Stream(arrivals)| >= 49 * BUFSIZ
  }

  lemma AppendNothing(c: Conn)
    ensures Append(c, []) == c
  {
    assert c.buf + [] == c.buf;
  }

  /** The bytes of one read, handed to the parser before the rest of the stream. */
  lemma OneMoreRead(x: Syntax, c: Conn, b: seq<Byte>, rest: seq<Byte>, closed: bool)
    requires !Consume(x, c, false).state.Finished()
    ensures OnePass(x, Append(Consume(x, c, false), b), rest, closed) == OnePass(x, c, b + rest, closed)
  {
    var c' := Consume(x, c, false);
    LookingIsFree(x, c, b + rest, false);
    LookingIsFree(x, c, b + rest, true);
    assert Append(Append(c', b), rest) == Append(c', b + rest) by {
      assert c'.buf + b + rest == c'.buf + (b + rest);
    }
  }

  lemma CompleteAtOnce(x: Syntax, c: Conn, arrivals: seq<Arrival>)
    requires !c.state.Finished() && Consume(x, c, false).state.Finished()
    ensures AgreesWithOnePass(x, c, arrivals, Complete(Consume(x, c, false)))
  {
    DrainNeverDone(x, c);
    CompleteStays(x, c, Stream(arrivals));
  }

  lemma LastLook(x: Syntax, c: Conn, arrivals: seq<Arrival>)
    requires !Consume(x, c, false).state.Finished()
    requires arrivals == [] || arrivals[0].Eof?
    ensures arrivals == [] ==> AgreesWithOnePass(x, c, arrivals, Waiting(Consume(x, c, false)))
    ensures arrivals != [] ==>
      AgreesWithOnePass(x, c, arrivals, Complete(Consume(x, Consume(x, c, false), true)))
  {
    AppendNothing(c);
    AppendNothing(Consume(x, c, false));
    LookingIsFree(x, c, [], true);
  }

  /** However the stream is cut into reads, the loop ends where one pass over the whole stream ends. */
  lemma {:induction false} ChunksDoNotMatter(x: Syntax, c: Conn, arrivals: seq<Arrival>)
    requires !c.state.Finished()
    ensures AgreesWithOnePass(x, c, arrivals, Receive(x, c, false, arrivals))
    decreases |arrivals|
  {
    var c' := Consume(x, c, false);
    DrainShrinks(x, c);
    if c'.state.Finished() {
      CompleteAtOnce(x, c, arrivals);
    } else if arrivals == [] || arrivals[0].Eof? {
      LastLook(x, c, arrivals);
    } else {
      var b := if arrivals[0].Data? then arrivals[0].bytes else [];
      AppendNothing(c');
      OneMoreRead(x, c, b, Stream(arrivals[1..]), Closed(arrivals[1..]));
      ChunksDoNotMatter(x, Append(c', b), arrivals[1..]);
    }
  }

  lemma {:induction false} DrainShrinks(x: Syntax, c: Conn)
    ensures |Drain(x, c).buf| <= |c.buf|
    decreases |c.buf|
  {
    if InHead(c) && FirstCrlf(c.buf).Some? {
      DrainShrinks(x, TakeLine(x, c, FirstCrlf(c.buf).value));
    }
  }

  /** Two ways to cut the same stream give the same response, down to the bytes of the body. */
  lemma TwoChunkings(x: Syntax, first: seq<Arrival>, second: seq<Arrival>)
    requires Stream(first) == Stream(second) && Closed(first) == Closed(second)
    requires Receive(x, SENT, false, first).Complete? && Receive(x, SENT, false, second).Complete?
    ensures var r, r' := Receive(x, SENT, false, first).c, Receive(x, SENT, false, second).c;
      && r.state == r'.state && r.code == r'.code && r.length == r'.length && r.hasLength == r'.hasLength
      && (r.state.DONE? || r.state.CLOSED? ==>
            |r.buf| >= r.length && |r'.buf| >= r.length && r.buf[..r.length] == r'.buf[..r.length])
  {
    ChunksDoNotMatter(x, SENT, first);
    ChunksDoNotMatter(x, SENT, second);
  }

  /** A response that fits the buffer never overflows it, however it arrives. */
  lemma NoOverflow(x: Syntax, arrivals: seq<Arrival>)
    requires |Stream(arrivals)| < 49 * BUFSIZ
    ensures Receive(x, SENT, false, arrivals) != Overflow
  {
    ChunksDoNotMatter(x, SENT, arrivals);
  }

  // What counts as a response: sections 6, 6.1 and 7.2.2 of RFC 1945

  /** A line that CRLF ends and does not interrupt. */
  predicate IsLine(line: seq<Byte>) {
    FirstCrlf(line + CRLF) == Some(|line|)
  }

  function Lines(lines: seq<seq<Byte>>): seq<Byte> {
    if lines == [] then [] else lines[0] + CRLF + Lines(lines[1..])
  }

  predicate AreHeaders(headers: seq<seq<Byte>>) {
    forall h :: h in headers ==> IsLine(h) && h != []
  }

  /** The last Content-Length counts. */
  function LengthOf(x: Syntax, headers: seq<seq<Byte>>): Option<nat> {
    if headers == [] then None else
    var later := LengthOf(x, headers[1..]);
    if later.None? && CONTENT_LENGTH <= headers[0] then Some(x.number(headers[0][16..])) else later
  }

  /** A stream that begins with a complete head: status line, headers, an empty line, and then the body so far. */
  ghost predicate IsResponse(x: Syntax, stream: seq<Byte>, line: seq<Byte>, headers: seq<seq<Byte>>, body: seq<Byte>) {
    && IsLine(line) && x.status(line).Some? && AreHeaders(headers)
    && stream == line + CRLF + Lines(headers) + CRLF + body
  }

  /** The parser takes the headers in and stops in front of the body. */
  lemma {:induction false} HeadersDrain(x: Syntax, c: Conn, headers: seq<seq<Byte>>, body: seq<Byte>)
    requires c.state.HEADERS? && AreHeaders(headers)
    requires c.buf == Lines(headers) + CRLF + body
    ensures var d := Drain(x, c);
      && d.state == BODY && d.code == c.code && d.buf == body
      && d.hasLength == (c.hasLength || LengthOf(x, headers).Some?)
      && d.length == if LengthOf(x, headers).Some? then LengthOf(x, headers).value else c.length
    decreases |headers|
  {
    if headers == [] {
      assert CrlfAt(c.buf, 0);
      assert c.buf[2..] == body;
    } else {
      var h, more := headers[0], Lines(headers[1..]) + CRLF + body;
      assert IsLine(h) && h != [];
      assert c.buf == h + CRLF + more;
      FirstCrlfOfAppend(h + CRLF, more);
      var c' := TakeLine(x, c, |h|);
      assert c.buf[..|h|] == h && c.buf[|h| + 2..] == more;
      forall k | k in headers[1..] ensures IsLine(k) && k != [] {
      }
      HeadersDrain(x, c', headers[1..], body);
    }
  }

  lemma FirstCrlfOfLine(b: seq<Byte>)
    requires FirstCrlf(b).Some?
    ensures IsLine(b[..FirstCrlf(b).value])
    ensures b == b[..FirstCrlf(b).value] + CRLF + b[FirstCrlf(b).value + 2..]
  {
    var i := FirstCrlf(b).value;
    assert CrlfAt(b[..i] + CRLF, i);
    forall j: nat | j < i ensures !CrlfAt(b[..i] + CRLF, j) {
      assert !CrlfAt(b, j);
    }
  }

  lemma Regroup(a: seq<Byte>, b: seq<Byte>, c: seq<Byte>)
    ensures a + (b + c) == a + b + c
  {
  }

  /** Conversely, whatever leads the parser to the body is a list of headers. */
  lemma {:induction false} DrainedHeaders(x: Syntax, c: Conn) returns (headers: seq<seq<Byte>>)
    requires c.state.HEADERS? && Drain(x, c).state == BODY
    ensures AreHeaders(headers) && c.buf == Lines(headers) + CRLF + Drain(x, c).buf
    decreases |c.buf|
  {
    var i := FirstCrlf(c.buf).value;
    FirstCrlfOfLine(c.buf);
    if i == 0 {
      headers := [];
    } else {
      var c' := TakeLine(x, c, i);
      var more := DrainedHeaders(x, c');
      headers := [c.buf[..i]] + more;
      assert headers[1..] == more;
      Regroup(c.buf[..i] + CRLF, Lines(more) + CRLF, Drain(x, c').buf);
      Regroup(c.buf[..i] + CRLF, Lines(more), CRLF);
    }
  }

  /** The parser reaches the body exactly on streams that begin with a complete head, and finds its parts. */
  lemma HeadOfResponse(x: Syntax, stream: seq<Byte>, line: seq<Byte>, headers: seq<seq<Byte>>, body: seq<Byte>)
    requires IsResponse(x, stream, line, headers, body)
    ensures Drain(x, Append(SENT, stream)) ==
            Conn(BODY, x.status(line).value,
                 if LengthOf(x, headers).Some? then LengthOf(x, headers).value else 0,
                 LengthOf(x, headers).Some?, body)
  {
    var c, more := Append(SENT, stream), Lines(headers) + CRLF + body;
    assert c.buf == line + CRLF + more;
    FirstCrlfOfAppend(line + CRLF, more);
    assert c.buf[..|line|] == line && c.buf[|line| + 2..] == more;
    HeadersDrain(x, TakeLine(x, c, |line|), headers, body);
  }

  lemma ResponseOfHead(x: Syntax, stream: seq<Byte>)
    returns (line: seq<Byte>, headers: seq<seq<Byte>>)
    requires Drain(x, Append(SENT, stream)).state == BODY
    ensures IsResponse(x, stream, line, headers, Drain(x, Append(SENT, stream)).buf)
  {
    var c := Append(SENT, stream);
    assert c.buf == stream;
    FirstCrlfOfLine(stream);
    var i := FirstCrlf(stream).value;
    var c' := TakeLine(x, c, i);
    line := stream[..i];
    headers := DrainedHeaders(x, c');
    var body := Drain(x, c').buf;
    Regroup(line + CRLF, Lines(headers) + CRLF, body);
    Regroup(line + CRLF, Lines(headers), CRLF);
  }

  ghost predicate CompleteByLength(x: Syntax, stream: seq<Byte>) {
    exists line, headers, body :: IsResponse(x, stream, line, headers, body)
      && LengthOf(x, headers).Some? && |body| >= LengthOf(x, headers).value
  }

  ghost predicate CompleteAtClose(x: Syntax, stream: seq<Byte>) {
    exists line, headers, body :: IsResponse(x, stream, line, headers, body)
      && (LengthOf(x, headers).Some? ==> |body| >= LengthOf(x, headers).value)
  }

  /**
   * While the connection is open a response is done exactly when its head is complete, gives a length, and that much of
   * the body is there; when the server closes the connection, exactly when the head is complete and no more is missing.
   */
  lemma CompletionFollowsTheStandard(x: Syntax, stream: seq<Byte>)
    ensures Consume(x, Append(SENT, stream), false).state == DONE <==> CompleteByLength(x, stream)
    ensures Consume(x, Append(SENT, stream), true).state == CLOSED <==> CompleteAtClose(x, stream)
    ensures Consume(x, Append(SENT, stream), true).state == BROKEN <==> !CompleteAtClose(x, stream)
  {
    var d := Drain(x, Append(SENT, stream));
    DrainNeverDone(x, Append(SENT, stream));
    if d.state == BODY {
      var line, headers := ResponseOfHead(x, stream);
      HeadOfResponse(x, stream, line, headers, d.buf);
    }
    forall line, headers, body | IsResponse(x, stream, line, headers, body)
      ensures d.state == BODY && d.buf == body && d.hasLength == LengthOf(x, headers).Some?
      ensures d.hasLength ==> d.length == LengthOf(x, headers).value
      ensures !d.hasLength ==> d.length == 0
    {
      HeadOfResponse(x, stream, line, headers, body);
    }
  }

  lemma {:induction false} DrainNeverDone(x: Syntax, c: Conn)
    requires !c.state.DONE? && !c.state.CLOSED?
    ensures !Drain(x, c).state.DONE? && !Drain(x, c).state.CLOSED?
    decreases |c.buf|
  {
    if InHead(c) && FirstCrlf(c.buf).Some? {
      DrainNeverDone(x, TakeLine(x, c, FirstCrlf(c.buf).value));
    }
  }

  lemma {:induction false} DrainKeepsCode(x: Syntax, c: Conn)
    requires !c.state.INITIAL?
    ensures Drain(x, c).code == c.code
    decreases |c.buf|
  {
    if InHead(c) && FirstCrlf(c.buf).Some? {
      DrainKeepsCode(x, TakeLine(x, c, FirstCrlf(c.buf).value));
    }
  }

  /**
   * The comment on http_receive_response promises status -1 for a connection that ends too early. The status is -1
   * exactly when no status line came through, so an end in the headers or in the body leaves the server's status.
   */
  lemma MissingStatus(x: Syntax, stream: seq<Byte>, eof: bool)
    ensures Consume(x, Append(SENT, stream), eof).code == -1 <==>
            FirstCrlf(stream).None? || x.status(stream[..FirstCrlf(stream).value]).None?
            || x.status(stream[..FirstCrlf(stream).value]).value == -1
  {
    var c := Append(SENT, stream);
    assert c.buf == stream;
    if FirstCrlf(stream).Some? {
      DrainKeepsCode(x, TakeLine(x, c, FirstCrlf(stream).value));
    }
  }

  /** A connection that ends right after a good status line is broken, but its status is 200. */
  lemma BrokenWithStatus(x: Syntax, line: seq<Byte>)
    requires IsLine(line) && x.status(line) == Some(200) && |line| + 2 < 49 * BUFSIZ
    ensures var r := Receive(x, SENT, false, [Data(line + CRLF), Eof]);
      r.Complete? && r.c.state == BROKEN && r.c.code == 200
  {
    var stream := line + CRLF;
    assert Append(SENT, stream).buf == stream;
    assert stream[..|line|] == line && stream[|line| + 2..] == [];
    var c := TakeLine(x, Append(SENT, stream), |line|);
    assert Drain(x, c) == c;
    var arrivals := [Data(stream), Eof];
    assert arrivals[1..] == [Eof];
    assert Consume(x, SENT, false) == SENT;
    assert Receive(x, c, false, [Eof]) == Complete(c.(state := BROKEN)) by {
      assert Consume(x, c, false) == c;
      assert [Eof][1..] == [];
    }
    LookingIsFree(x, SENT, stream, false);
    assert Receive(x, Append(SENT, stream), false, [Eof]) == Receive(x, c, false, [Eof]);
  }

  /** The connection object: a fixed buffer whose filled part is shifted to the front after every line. */
  class HttpConnection {
    var state: HttpState
    var code: int
    var contentLength: nat
    var hasContentLength: bool
    const buf: array<Byte>
    var len: nat

    predicate Valid()
      reads this
    {
      buf.Length == 50 * BUFSIZ && len <= buf.Length
    }

    function Value(): Conn
      requires Valid()
      reads this, buf
    {
      Conn(state, code, contentLength, hasContentLength, buf[..len])
    }

    constructor ()
      ensures Valid() && fresh(buf) && state == REQUEST
    {
      state, code, contentLength, hasContentLength, len := REQUEST, 0, 0, false, 0;
      buf := new Byte[50 * BUFSIZ](_ => 0);
    }

    /** The line before position i is taken in, and the rest of the buffer moves to the front. */
    method RemoveLine(x: Syntax, i: nat)
      requires Valid() && InHead(Value()) && i + 2 <= len
      modifies this, buf
      ensures Valid() && Value() == TakeLine(x, old(Value()), i)
    {
      ghost var before := buf[..len];
      assert buf[..i] == before[..i];
      if state.INITIAL? {
        match x.status(buf[..i]) {
          case Some(status) => state, code := HEADERS, status;
          case None => state := BROKEN;
        }
      } else if i == 0 {
        state := BODY;
      } else if CONTENT_LENGTH <= buf[..i] {
        contentLength, hasContentLength := x.number(buf[..i][16..]), true;
      }
      forall k | 0 <= k < len - (i + 2) {
        buf[k] := buf[k + i + 2];
      }
      len := len - (i + 2);
      assert buf[..len] == before[i + 2..];
    }

    /** The loop of http_consume_headers. */
    method ConsumeLines(x: Syntax)
      requires Valid()
      modifies this, buf
      ensures Valid() && Value() == Drain(x, old(Value())) && len <= old(len)
    {
      var i: nat := 0;
      while (state.INITIAL? || state.HEADERS?) && i + 2 <= len
        invariant Valid() && len <= old(len)
        invariant Drain(x, Value()) == Drain(x, old(Value()))
        invariant FirstCrlf(buf[..len], i) == FirstCrlf(buf[..len])
        decreases len, len - i
      {
        if buf[i] == CR && buf[i + 1] == LF {
          assert CrlfAt(buf[..len], i);
          RemoveLine(x, i);
          i := 0;
        } else {
          i := i + 1;
        }
      }
    }

    method ConsumeHeaders(x: Syntax, eof: bool) returns (more: bool)
      requires Valid()
      modifies this, buf
      ensures Valid() && Value() == Consume(x, old(Value()), eof)
      ensures more == !state.Finished() && len <= old(len)
    {
      ConsumeLines(x);
      if state.BODY? && (hasContentLength || eof) && len >= contentLength {
        state := DONE;
      }
      if eof {
        state := if state.DONE? then CLOSED else BROKEN;
      }
      more := !state.Finished();
    }

    /** What read puts behind the filled part. */
    method Fill(b: seq<Byte>)
      requires Valid() && len + |b| <= buf.Length
      modifies this, buf
      ensures Valid() && Value() == Append(old(Value()), b)
    {
      ghost var before := buf[..len];
      forall j | 0 <= j < |b| {
        buf[len + j] := b[j];
      }
      len := len + |b|;
      assert buf[..len] == before + b;
    }

    /** Each call of read brings at most BUFSIZ bytes. */
    method ReceiveResponse(x: Syntax, arrivals: seq<Arrival>) returns (r: Reception)
      requires Valid() && !state.Finished() && len <= 49 * BUFSIZ
      requires forall a :: a in arrivals && a.Data? ==> |a.bytes| <= BUFSIZ
      modifies this, buf
      ensures Valid() && r == Receive(x, old(Value()), false, arrivals)
      ensures !r.Overflow? ==> r.c == Value()
    {
      var eof, k: nat := false, 0;
      while true
        invariant Valid() && k <= |arrivals|
        invariant Receive(x, Value(), eof, arrivals[k..]) == Receive(x, old(Value()), false, arrivals)
        decreases |arrivals| - k
      {
        var more := ConsumeHeaders(x, eof);
        if !more {
          return Complete(Value());
        }
        if len >= 49 * BUFSIZ {
          return Overflow;
        }
        if k == |arrivals| {
          return Waiting(Value());
        }
        assert arrivals[k..][1..] == arrivals[k + 1..];
        match arrivals[k] {
          case Data(b) =>
            Fill(b);
          case Nothing =>
          case Eof => eof := true;
        }
        k := k + 1;
      }
    }
  }
}
