/** The gateway's reading of upstream responses (HttpGateway.cpp:175-261). */
module GatewayResponses {
  import opened Bytes
  import opened Reader
  import opened HttpProtocol
  import opened HttpProxy

  /** Exactly one blank after the colon. */
  function ParseStrictHeader(s: bytes): (p: Parse<Header>)
    ensures p.Ok? ==> |p.rest| < |s|
  {
    var (name, s1) :- TakeUntil(s, [COLON], true);
    var (blank, s2) :- TakeByte(s1);
    var (_, s3) :- Reject(blank != SP, s2);
    var (value, s4) :- TakeUntil(s3, [CR], false);
    var (_, s5) :- ExpectCrlf(s4);
    var (_, s6) :- Reject(name == TRANSFER_ENCODING && value != CHUNKED, s5);
    Ok((name, value), s6)
  }

  function ParseStrictHeaders(s: bytes): (p: Parse<seq<Header>>)
    ensures p.Ok? ==> |p.rest| <= |s|
    decreases |s|
  {
    var (next, _) :- PeekByte(s);
    if next == CR then Ok([], s) else
    var (h, s1) :- ParseStrictHeader(s);
    var (hs, s2) :- ParseStrictHeaders(s1);
    Ok([h] + hs, s2)
  }

  /** A length above zero, or chunks; nothing else is a body. */
  function ParseGatewayBody(length: int, chunked: bool, s: bytes): Parse<bytes> {
    if length > 0 then TakeSize(s, length)
    else if chunked then ParseChunks(s, [])
    else Bad
  }

  function ParseUpstream(s: bytes): Parse<Response> {
    var (line, s1) :- ParseStartLine(s);
    var (hs, s2) :- ParseStrictHeaders(s1);
    var (_, s3) :- ExpectCrlf(s2);
    var (body, s4) :- ParseGatewayBody(LengthOf(Kept(hs)), Chunked(hs), s3);
    Ok(Response(line.first, Atoi(line.second), line.third, Kept(hs), body), s4)
  }

  // ---- How the upstream cuts its response into chunks does not matter ----

  lemma StrictHeaderExtends(s: bytes, t: bytes)
    ensures Extends(ParseStrictHeader(s), t, ParseStrictHeader(s + t))
  {
    hide TakeUntil, ExpectCrlf;
    TakeUntilExtends(s, t, [COLON], true);
    var p1 := TakeUntil(s, [COLON], true);
    if p1.Ok? {
      TakeByteExtends(p1.rest, t);
      var p2 := TakeByte(p1.rest);
      if p2.Ok? {
        TakeUntilExtends(p2.rest, t, [CR], false);
        var p3 := TakeUntil(p2.rest, [CR], false);
        if p3.Ok? {
          CrlfExtends(p3.rest, t);
        }
      }
    }
  }

  lemma {:induction false} StrictHeadersExtend(s: bytes, t: bytes)
    ensures Extends(ParseStrictHeaders(s), t, ParseStrictHeaders(s + t))
    decreases |s|
  {
    hide ParseStrictHeader;
    TakeByteExtends(s, t);
    if s != [] && s[0] != CR {
      StrictHeaderExtends(s, t);
      var p := ParseStrictHeader(s);
      if p.Ok? {
        StrictHeadersExtend(p.rest, t);
      }
    }
  }

  lemma {:induction false} ChunksExtend(s: bytes, t: bytes, body: bytes)
    ensures Extends(ParseChunks(s, body), t, ParseChunks(s + t, body))
    decreases |s|
  {
    hide TakeUntil, ExpectCrlf, Hex2Long;
    TakeUntilExtends(s, t, [CR], false);
    var p1 := TakeUntil(s, [CR], false);
    if p1.Ok? {
      CrlfExtends(p1.rest, t);
      var p2 := ExpectCrlf(p1.rest);
      if p2.Ok? {
        var length := Hex2Long(p1.value);
        TakeSizeExtends(p2.rest, t, length);
        var p3 := TakeSize(p2.rest, length);
        if p3.Ok? {
          CrlfExtends(p3.rest, t);
          var p4 := ExpectCrlf(p3.rest);
          if p4.Ok? && length != 0 {
            ChunksExtend(p4.rest, t, body + p3.value);
          }
        }
      }
    }
  }

  lemma UpstreamExtends(s: bytes, t: bytes)
    ensures Extends(ParseUpstream(s), t, ParseUpstream(s + t))
  {
    hide ParseStartLine, ParseStrictHeaders, ExpectCrlf, ParseChunks, Kept, Chunked, LengthOf, Atoi;
    StartLineExtends(s, t);
    var p1 := ParseStartLine(s);
    if p1.Ok? {
      StrictHeadersExtend(p1.rest, t);
      var p2 := ParseStrictHeaders(p1.rest);
      if p2.Ok? {
        CrlfExtends(p2.rest, t);
        var p3 := ExpectCrlf(p2.rest);
        if p3.Ok? {
          var length := LengthOf(Kept(p2.value));
          TakeSizeExtends(p3.rest, t, if length > 0 then length else 0);
          ChunksExtend(p3.rest, t, []);
        }
      }
    }
  }

  // ---- The parser as the source runs it ----

  method ReadStrictHeaders(s: StreamReader) returns (r: Outcome<(seq<Header>, bool, int)>)
    requires s.Valid()
    modifies s
    ensures s.Valid()
    ensures match ParseStrictHeaders(old(s.Rest()))
            case Ok(hs, rest) => r == Got((Kept(hs), Chunked(hs), LengthOf(Kept(hs)))) && s.Rest() == rest
            case Again => r == AG
            case Bad => r == NG
  {
    hide ParseStrictHeader, Kept, LengthOf;
    var headers: seq<Header>, isChunked, contentLength := [], false, -1;
    ghost var seen: seq<Header>, goal := [], ParseStrictHeaders(s.Rest());
    HeadersSoFar([], ParseStrictHeaders(s.Rest()));
    while true
      invariant s.Valid() && After(seen, ParseStrictHeaders(s.Rest())) == goal
      invariant headers == Kept(seen) && isChunked == Chunked(seen) && contentLength == LengthOf(headers)
      decreases |s.Rest()|
    {
      var next :- s.PreadPlain();
      if next == CR {
        assert seen + [] == seen;
        return Got((headers, isChunked, contentLength));
      }
      var h :- ReadStrictHeader(s);
      HeadersStep(seen, h, ParseStrictHeaders(s.Rest()));
      seen := seen + [h];
      if h.0 == TRANSFER_ENCODING {
        isChunked := true;
        continue;
      }
      headers := headers + [h];
      if h.0 == CONTENT_LENGTH {
        contentLength := Atoi(h.1);
      }
    }
  }

  method ReadStrictHeader(s: StreamReader) returns (r: Outcome<Header>)
    requires s.Valid()
    modifies s
    ensures s.Valid() && Agrees(r, ParseStrictHeader(old(s.Rest())), s.Rest())
  {
    hide TakeUntil, ExpectCrlf;
    var name :- s.ReadUntil([COLON], true);
    var next :- s.ReadPlain();
    var _ :- s.FailIf(next != SP);
    var value :- s.ReadUntil([CR]);
    var _ :- ReadCrlf(s);
    if name == TRANSFER_ENCODING {
      var _ :- s.FailIf(value != CHUNKED);
    }
    r := Got((name, value));
  }

  method ReadUpstream(s: StreamReader) returns (r: Outcome<Response>)
    requires s.Valid()
    modifies s
    ensures s.Valid() && Agrees(r, ParseUpstream(old(s.Rest())), s.Rest())
  {
    hide ParseStartLine, ParseStrictHeaders, ExpectCrlf, ParseChunks, Kept, Chunked, LengthOf, Atoi;
    var line :- ReadStartLine(s);
    var read :- ReadStrictHeaders(s);
    var (headers, isChunked, contentLength) := read;
    var _ :- ReadCrlf(s);
    var body := [];
    if contentLength > 0 {
      body :- s.ReadSize(contentLength);
    } else if isChunked {
      body :- ReadChunks(s);
    } else {
      return NG;
    }
    r := Got(Response(line.first, Atoi(line.second), line.third, headers, body));
  }
}
