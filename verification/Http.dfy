/** HTTP requests: the parser shared by the server, the gateway and the proxy
    (Protocol/Http.cpp, http_proxy/http.cpp), and the server loop over pipelined requests. */
module HttpProtocol {
  import opened Bytes
  import opened Reader
  import opened Chunking
  import opened Bufferables

  /** "Content-Length" */
  const CONTENT_LENGTH: bytes := [67, 111, 110, 116, 101, 110, 116, 45, 76, 101, 110, 103, 116, 104]
  /** "Transfer-Encoding" */
  const TRANSFER_ENCODING: bytes := [84, 114, 97, 110, 115, 102, 101, 114, 45, 69, 110, 99, 111, 100, 105, 110, 103]
  /** "Connection" */
  const CONNECTION: bytes := [67, 111, 110, 110, 101, 99, 116, 105, 111, 110]
  /** "close" */
  const CLOSE: bytes := [99, 108, 111, 115, 101]
  /** "1.0" */
  const VERSION_1_0: bytes := [49, 46, 48]

  datatype Request = Request(method_: bytes, uri: bytes, version: bytes, headers: map<bytes, bytes>, body: bytes)

  /** The first line of a request or a response: three words. */
  datatype StartLine = StartLine(first: bytes, second: bytes, third: bytes)

  // ---- Parsing, as functions ----

  function ExpectCrlf(s: bytes): (p: Parse<()>)
    ensures p.Ok? ==> |p.rest| < |s|
  {
    var (crlf, s1) :- TakeSize(s, 2);
    Reject(crlf != CRLF, s1)
  }

  function Word(s: bytes): (p: Parse<bytes>)
    ensures p.Ok? ==> |p.rest| < |s|
    ensures s == [] ==> p.Again?
  {
    var (word, s1) :- TakeUntil(s, [SP], false);
    var (_, s2) :- TakeWhile(s1, [SP], true);
    Ok(word, s2)
  }

  function ParseStartLine(s: bytes): (p: Parse<StartLine>)
    ensures p.Ok? ==> |p.rest| < |s|
    ensures s == [] ==> p.Again?
  {
    var (first, s1) :- Word(s);
    var (second, s2) :- Word(s1);
    var (third, s3) :- TakeUntil(s2, [CR], false);
    var (_, s4) :- ExpectCrlf(s3);
    Ok(StartLine(first, second, third), s4)
  }

  /** One header line: exactly one blank after the colon, no transfer encodings. */
  function ParseHeader(s: bytes): (p: Parse<(bytes, bytes)>)
    ensures p.Ok? ==> |p.rest| < |s|
  {
    var (name, s1) :- TakeUntil(s, [COLON], true);
    var (blank, s2) :- TakeByte(s1);
    var (_, s3) :- Reject(blank != SP || name == TRANSFER_ENCODING, s2);
    var (value, s4) :- TakeUntil(s3, [CR], false);
    var (_, s5) :- ExpectCrlf(s4);
    Ok((name, value), s5)
  }

  /** Header lines up to the blank line. */
  function ParseHeaders(s: bytes, headers: map<bytes, bytes>): (p: Parse<map<bytes, bytes>>)
    ensures p.Ok? ==> |p.rest| <= |s|
    decreases |s|
  {
    var (next, _) :- PeekByte(s);
    if next == CR then Ok(headers, s) else
    var (h, s1) :- ParseHeader(s);
    ParseHeaders(s1, headers[h.0 := h.1])
  }

  /** The last Content-Length received; -1 when there is none. */
  function ContentLength(headers: map<bytes, bytes>): int {
    if CONTENT_LENGTH in headers then Atoi(headers[CONTENT_LENGTH]) else -1
  }

  function ParseBody(length: int, s: bytes): (p: Parse<bytes>)
    ensures p.Ok? ==> |p.rest| <= |s|
    ensures !p.Bad?
  {
    if length > 0 then TakeSize(s, length) else Ok([], s)
  }

  function ParseRequest(s: bytes): (p: Parse<Request>)
    ensures p.Ok? ==> |p.rest| < |s|
    ensures s == [] ==> p.Again?
  {
    var (line, s1) :- ParseStartLine(s);
    var (headers, s2) :- ParseHeaders(s1, map[]);
    var (_, s3) :- ExpectCrlf(s2);
    var (body, s4) :- ParseBody(ContentLength(headers), s3);
    Ok(Request(line.first, line.second, line.third, headers, body), s4)
  }

  // ---- More input does not change a decided result ----

  lemma CrlfExtends(s: bytes, t: bytes)
    ensures Extends(ExpectCrlf(s), t, ExpectCrlf(s + t))
  {
    TakeSizeExtends(s, t, 2);
  }

  lemma WordExtends(s: bytes, t: bytes)
    ensures Extends(Word(s), t, Word(s + t))
  {
    TakeUntilExtends(s, t, [SP], false);
    var p := TakeUntil(s, [SP], false);
    if p.Ok? {
      TakeWhileExtends(p.rest, t, [SP], true);
    }
  }

  lemma StartLineExtends(s: bytes, t: bytes)
    ensures Extends(ParseStartLine(s), t, ParseStartLine(s + t))
  {
    hide Word, TakeUntil, ExpectCrlf;
    WordExtends(s, t);
    var p1 := Word(s);
    if p1.Ok? {
      WordExtends(p1.rest, t);
      var p2 := Word(p1.rest);
      if p2.Ok? {
        TakeUntilExtends(p2.rest, t, [CR], false);
        var p3 := TakeUntil(p2.rest, [CR], false);
        if p3.Ok? {
          CrlfExtends(p3.rest, t);
        }
      }
    }
  }

  lemma HeaderExtends(s: bytes, t: bytes)
    ensures Extends(ParseHeader(s), t, ParseHeader(s + t))
  {
    hide TakeUntil, ExpectCrlf;
    TakeUntilExtends(s, t, [COLON], true);
    var p1 := TakeUntil(s, [COLON], true);
    if p1.Ok? {
      TakeByteExtends(p1.rest, t);
      var p2 := TakeByte(p1.rest);
      if p2.Ok? {
        TakeUntilExtends(p2.rest, t, [CR], false);
        var p3 := TakeUntil(p2.rest, [CR], false);
        if p3.Ok? {
          CrlfExtends(p3.rest, t);
        }
      }
    }
  }

  lemma {:induction false} HeadersExtend(s: bytes, t: bytes, headers: map<bytes, bytes>)
    ensures Extends(ParseHeaders(s, headers), t, ParseHeaders(s + t, headers))
    decreases |s|
  {
    hide ParseHeader;
    TakeByteExtends(s, t);
    if s != [] && s[0] != CR {
      HeaderExtends(s, t);
      var p := ParseHeader(s);
      if p.Ok? {
        HeadersExtend(p.rest, t, headers[p.value.0 := p.value.1]);
      }
    }
  }

  lemma RequestExtends(s: bytes, t: bytes)
    ensures Extends(ParseRequest(s), t, ParseRequest(s + t))
  {
    hide ParseStartLine, ParseHeaders, ExpectCrlf, ContentLength;
    StartLineExtends(s, t);
    var p1 := ParseStartLine(s);
    if p1.Ok? {
      HeadersExtend(p1.rest, t, map[]);
      var p2 := ParseHeaders(p1.rest, map[]);
      if p2.Ok? {
        CrlfExtends(p2.rest, t);
        var p3 := ExpectCrlf(p2.rest);
        if p3.Ok? {
          var n := ContentLength(p2.value);
          TakeSizeExtends(p3.rest, t, if n > 0 then n else 0);
        }
      }
    }
  }

  lemma RequestStable()
    ensures Stable(ParseRequest)
  {
    hide ParseRequest;
    forall s, t ensures Extends(ParseRequest(s), t, ParseRequest(s + t)) {
      RequestExtends(s, t);
    }
  }

  /** Requests after which the server stops serving the connection: asked to close, or an HTTP/1.0
      request that does not ask to stay. (A version shorter than "HTTP/" makes substr throw.) */
  predicate LastRequest(r: Request) {
    if CONNECTION in r.headers then r.headers[CONNECTION] == CLOSE
    else |r.version| < 5 || r.version[5..] == VERSION_1_0
  }

  /** No Connection header and a version shorter than "HTTP/": substr throws, which nothing catches. */
  predicate Throws(r: Request) {
    CONNECTION !in r.headers && |r.version| < 5
  }

  lemma ThrowsIsLast(r: Request)
    ensures Throws(r) ==> LastRequest(r)
  {
  }

  /** Pipelined requests: the chunking of the stream changes neither which requests are served,
      nor the bytes kept, nor the decision to close. */
  lemma RequestsChunkingIndependent(xs: seq<bytes>, ys: seq<bytes>)
    requires Flatten(xs) == Flatten(ys)
    ensures FeedAll(ParseRequest, LastRequest, Fresh(), xs) == FeedAll(ParseRequest, LastRequest, Fresh(), ys)
  {
    hide ParseRequest;
    RequestStable();
    ChunkingDoesNotMatter(ParseRequest, LastRequest, xs, ys);
  }

  // ---- The parser as the source runs it ----

  method ReadCrlf(s: StreamReader) returns (r: Outcome<()>)
    requires s.Valid()
    modifies s
    ensures s.Valid() && Agrees(r, ExpectCrlf(old(s.Rest())), s.Rest())
  {
    var crlf :- s.ReadSize(2);
    r := s.FailIf(crlf != CRLF);
  }

  method ReadStartLine(s: StreamReader) returns (r: Outcome<StartLine>)
    requires s.Valid()
    modifies s
    ensures s.Valid() && Agrees(r, ParseStartLine(old(s.Rest())), s.Rest())
  {
    hide TakeUntil, TakeWhile, ExpectCrlf;
    var first :- s.ReadUntil([SP]);
    var _ :- s.ReadUp([SP]);
    var second :- s.ReadUntil([SP]);
    var _ :- s.ReadUp([SP]);
    var third :- s.ReadUntil([CR]);
    var _ :- ReadCrlf(s);
    r := Got(StartLine(first, second, third));
  }

  method ReadHeaders(s: StreamReader) returns (r: Outcome<map<bytes, bytes>>)
    requires s.Valid()
    modifies s
    ensures s.Valid() && Agrees(r, ParseHeaders(old(s.Rest()), map[]), s.Rest())
  {
    hide TakeUntil, ExpectCrlf;
    var headers: map<bytes, bytes> := map[];
    ghost var goal := ParseHeaders(s.Rest(), map[]);
    while true
      invariant s.Valid() && ParseHeaders(s.Rest(), headers) == goal
      decreases |s.Rest()|
    {
      var next :- s.PreadPlain();
      if next == CR {
        return Got(headers);
      }
      ghost var before := s.Rest();
      var name :- s.ReadUntil([COLON], true);
      var blank :- s.ReadPlain();
      var _ :- s.FailIf(blank != SP);
      var _ :- s.FailIf(name == TRANSFER_ENCODING);
      var value :- s.ReadUntil([CR]);
      var _ :- ReadCrlf(s);
      assert ParseHeader(before) == Ok((name, value), s.Rest());
      headers := headers[name := value];
    }
  }

  method ReadRequest(s: StreamReader) returns (r: Outcome<Request>)
    requires s.Valid()
    modifies s
    ensures s.Valid() && Agrees(r, ParseRequest(old(s.Rest())), s.Rest())
  {
    hide ParseStartLine, ParseHeaders, ExpectCrlf, ContentLength;
    var line :- ReadStartLine(s);
    var headers :- ReadHeaders(s);
    var _ :- ReadCrlf(s);
    var length := ContentLength(headers);
    var body := [];
    if length > 0 {
      body :- s.ReadSize(length);
    }
    r := Got(Request(line.first, line.second, line.third, headers, body));
  }

  class Http {
    const buffers: Bufferable

    constructor ()
      ensures fresh(buffers) && buffers.buf == map[]
    {
      buffers := new Bufferable();
    }

    /** The requests ON_REQUEST fired for, whether the connection is served no longer, and whether that is
        because an exception ended the program. `at`: which response's write meets a broken pipe, if there are so
        many. */
    method OnMessage(client: int, message: bytes, at: nat) returns (fired: seq<Request>, close: bool, thrown: bool)
      modifies buffers
      ensures Conn(fired, Saved(buffers.buf, client), close)
           == Turn(ParseRequest, LastRequest, Always, Conn([], old(Saved(buffers.buf, client)), false), message, at)
      ensures (thrown <==> fired != [] && Throws(fired[|fired| - 1])) && (thrown ==> close)
      ensures buffers.buf - {client} == old(buffers.buf) - {client}
    {
      hide ParseRequest, LastRequest, Throws, Drain, Turn, Breaks;
      TurnDrains(ParseRequest, LastRequest, Always, Saved(buffers.buf, client), message, at);
      fired, thrown := [], false;
      var broken := false;
      NothingBreaks(Always<Request>, at);
      var whole := buffers.AppendBuf(client, message);
      var s := new StreamReader(whole);
      var offset := 0;
      ghost var goal := Drain(ParseRequest, LastRequest, Conn([], whole, false));
      assert whole[0..] == whole;
      while true
        invariant s.Valid() && fresh(s) && s.str == whole && s.offset == offset
        invariant Drain(ParseRequest, LastRequest, Conn(fired, s.Rest(), false)) == goal
        invariant !thrown && (fired != [] ==> !Throws(fired[|fired| - 1]))
        invariant broken == Breaks(Always, fired, at)
        invariant client !in buffers.buf && buffers.buf - {client} == old(buffers.buf) - {client}
        decreases |whole| - offset
      {
        DrainStep(ParseRequest, LastRequest, Conn(fired, s.Rest(), false));
        var r := ReadRequest(s);
        match r {
          case AG =>
            var _ := buffers.NeedBuf(client, if offset > 0 then whole[offset..] else whole, true);
            return fired, broken, false;
          case NG =>
            buffers.EraseBuf(client);
            return fired, true, false;
          case Got(request) =>
            offset := s.offset;
            BreaksNext(Always, fired, request, at);
            fired := fired + [request];
            var breaks := |fired| - 1 == at;
            Written(client, breaks);
            broken := broken || breaks;
            ThrowsIsLast(request);
            if LastRequest(request) {
              buffers.EraseBuf(client);
              return fired, true, Throws(request);
            }
        }
        if s.End() {
          DrainStep(ParseRequest, LastRequest, Conn(fired, [], false));
          return fired, broken, false;
        }
      }
    }

    /** After the write of an answer: a broken pipe has closed the client, whose CLOSE callback erases what is saved. */
    method Written(client: int, breaks: bool)
      modifies buffers
      ensures buffers.buf == if breaks then old(buffers.buf) - {client} else old(buffers.buf)
      ensures buffers.buf - {client} == old(buffers.buf) - {client}
    {
      if breaks {
        buffers.EraseBuf(client);
      }
    }

    /** The READ callbacks of one connection, one for each chunk that comes; none after it is closed. What an
        earlier connection under the number left saved comes first. */
    method Serve(client: int, chunks: seq<bytes>, ats: seq<nat>) returns (fired: seq<Request>, close: bool,
        thrown: bool)
      requires |ats| == |chunks|
      modifies buffers
      ensures Conn(fired, Saved(buffers.buf, client), close)
           == Turns(ParseRequest, LastRequest, Always, Conn([], old(Saved(buffers.buf, client)), false), chunks, ats)
      ensures (thrown <==> fired != [] && Throws(fired[|fired| - 1])) && (thrown ==> close)
      ensures buffers.buf - {client} == old(buffers.buf) - {client}
    {
      hide ParseRequest, LastRequest, Throws, Turn, Turns;
      fired, close, thrown := [], false, false;
      ghost var first := Conn([], Saved(buffers.buf, client), false);
      NoTurn(ParseRequest, LastRequest, Always, first, chunks, ats);
      for i := 0 to |chunks|
        invariant Conn(fired, Saved(buffers.buf, client), close)
               == Turns(ParseRequest, LastRequest, Always, first, chunks[..i], ats[..i])
        invariant thrown <==> fired != [] && Throws(fired[|fired| - 1])
        invariant thrown ==> close
        invariant buffers.buf - {client} == old(buffers.buf) - {client}
      {
        NextTurn(ParseRequest, LastRequest, Always, first, chunks, ats, i);
        if !close {
          var next;
          next, close, thrown := OnMessage(client, chunks[i], ats[i]);
          fired := fired + next;
        }
      }
      assert chunks[..|chunks|] == chunks && ats[..|ats|] == ats;
    }
  }
}
