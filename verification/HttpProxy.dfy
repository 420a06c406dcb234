/** The proxy's message rewriting: a parsed response is printed again with a Content-Length
    instead of chunks, and a parsed request without the proxy's own headers (http_proxy/http.cpp). */
module HttpProxy {
  import opened Bytes
  import opened Reader
  import opened HttpProtocol

  /** "Strict-Transport-Security" */
  const STRICT_TRANSPORT_SECURITY: bytes :=
    [83, 116, 114, 105, 99, 116, 45, 84, 114, 97, 110, 115, 112, 111, 114, 116, 45, 83, 101, 99, 117, 114, 105, 116,
        121]
  /** "chunked" */
  const CHUNKED: bytes := [99, 104, 117, 110, 107, 101, 100]

  type Header = (bytes, bytes)

  datatype Response = Response(version: bytes, status: int, reason: bytes, headers: seq<Header>, body: bytes)

  // ---- Parsing ----

  /** A header line; any number of blanks after the colon. */
  function ParseLooseHeader(s: bytes): (p: Parse<Header>)
    ensures p.Ok? ==> |p.rest| < |s|
  {
    var (name, s1) :- TakeUntil(s, [COLON], true);
    var (_, s2) :- TakeWhile(s1, [SP], true);
    var (value, s3) :- TakeUntil(s2, [CR], false);
    var (_, s4) :- ExpectCrlf(s3);
    var (_, s5) :- Reject(name == TRANSFER_ENCODING && value != CHUNKED, s4);
    Ok((name, value), s5)
  }

  /** All header lines as they came. */
  function ParseLooseHeaders(s: bytes): (p: Parse<seq<Header>>)
    ensures p.Ok? ==> |p.rest| <= |s|
    decreases |s|
  {
    var (next, _) :- PeekByte(s);
    if next == CR then Ok([], s) else
    var (h, s1) :- ParseLooseHeader(s);
    var (hs, s2) :- ParseLooseHeaders(s1);
    Ok([h] + hs, s2)
  }

  /** Transfer-Encoding is not kept. */
  function Kept(hs: seq<Header>): (r: seq<Header>)
    ensures forall i :: 0 <= i < |r| ==> r[i] in hs && r[i].0 != TRANSFER_ENCODING
  {
    if hs == [] then []
    else if hs[0].0 == TRANSFER_ENCODING then Kept(hs[1..])
    else [hs[0]] + Kept(hs[1..])
  }

  predicate Chunked(hs: seq<Header>) { exists h :: h in hs && h.0 == TRANSFER_ENCODING }

  /** The last Content-Length; -1 when there is none. */
  function LengthOf(hs: seq<Header>): int {
    if hs == [] then -1 else
    var last := hs[|hs| - 1];
    if last.0 == CONTENT_LENGTH then Atoi(last.1) else LengthOf(hs[..|hs| - 1])
  }

  predicate IsHexDigit(b: byte) { IsDigit(b) || 97 <= b <= 102 || 65 <= b <= 70 }

  function HexDigit(b: byte): nat
    requires IsHexDigit(b)
  {
    if b <= 57 then b - 48 else if b >= 97 then b - 87 else b - 55
  }

  function HexValue(s: bytes, acc: nat): nat {
    if s == [] || !IsHexDigit(s[0]) then acc else HexValue(s[1..], acc * 16 + HexDigit(s[0]))
  }

  const ULONG: nat := 0x1_0000_0000_0000_0000

  /** Extraction of an unsigned long in base 16: white space, a sign, 0x, digits; a value
      too large saturates and a negative one wraps. */
  function Hex2Long(s: bytes): nat {
    var t := SkipSpace(s);
    var negative := t != [] && t[0] == MINUS;
    var u := if t != [] && (t[0] == MINUS || t[0] == PLUS) then t[1..] else t;
    var w := if |u| >= 2 && u[0] == 48 && (u[1] == 120 || u[1] == 88) then u[2..] else u;
    var v := HexValue(w, 0);
    if v >= ULONG then ULONG - 1 else if negative then (ULONG - v) % ULONG else v
  }

  /** The chunks up to the empty one, joined (section 3.6.1 of RFC 2616). */
  function ParseChunks(s: bytes, body: bytes): (p: Parse<bytes>)
    decreases |s|
  {
    var (digits, s1) :- TakeUntil(s, [CR], false);
    var length := Hex2Long(digits);
    var (_, s2) :- ExpectCrlf(s1);
    var (data, s3) :- TakeSize(s2, length);
    var (_, s4) :- ExpectCrlf(s3);
    if length == 0 then Ok(body, s4) else ParseChunks(s4, body + data)
  }

  /** The body, and the headers with the length the source adds. */
  function ParseResponseBody(hs: seq<Header>, chunked: bool, s: bytes): Parse<(seq<Header>, bytes)> {
    var length := LengthOf(hs);
    if length > 0 then
      var (body, s1) :- TakeSize(s, length);
      Ok((hs, body), s1)
    else if chunked then
      var (body, s1) :- ParseChunks(s, []);
      Ok((hs + [(CONTENT_LENGTH, Decimal(|body|))], body), s1)
    else if length == 0 then Ok((hs, []), s)
    else if length == -1 && s == [] then Ok((hs + [(CONTENT_LENGTH, Decimal(0))], []), s)
    else Bad
  }

  function ParseResponse(s: bytes): Parse<Response> {
    var (line, s1) :- ParseStartLine(s);
    var (hs, s2) :- ParseLooseHeaders(s1);
    var (_, s3) :- ExpectCrlf(s2);
    var (content, s4) :- ParseResponseBody(Kept(hs), Chunked(hs), s3);
    Ok(Response(line.first, Atoi(line.second), line.third, content.0, content.1), s4)
  }

  // ---- Printing ----

  function HeaderText(h: Header): bytes { h.0 + [COLON, SP] + h.1 + CRLF }

  function HeadersText(hs: seq<Header>): bytes {
    if hs == [] then [] else HeaderText(hs[0]) + HeadersText(hs[1..])
  }

  function LineText(a: bytes, b: bytes, c: bytes): bytes { a + [SP] + b + [SP] + c + CRLF }

  function WithoutSts(hs: seq<Header>): (r: seq<Header>)
    ensures forall i :: 0 <= i < |r| ==> r[i] in hs
  {
    if hs == [] then []
    else if hs[0].0 == STRICT_TRANSPORT_SECURITY then WithoutSts(hs[1..])
    else [hs[0]] + WithoutSts(hs[1..])
  }

  function ToText(r: Response): bytes {
    LineText(r.version, DecimalInt(r.status), r.reason) + HeadersText(WithoutSts(r.headers)) + CRLF + r.body
  }

  /** What a printed response is meant to say: itself, without the one header. */
  function Rewritten(r: Response): Response { r.(headers := WithoutSts(r.headers)) }

  // ---- What a parse guarantees, and what makes printing safe ----

  /** A word that does not begin with a blank and has no CR. */
  predicate Tail(v: bytes) { CR !in v && (v != [] ==> v[0] != SP) }

  predicate GoodHeader(h: Header) {
    && COLON !in h.0 && (h.0 != [] ==> h.0[0] != CR)
    && Tail(h.1)
    && (h.0 == TRANSFER_ENCODING ==> h.1 == CHUNKED)
  }

  predicate GoodHeaders(hs: seq<Header>) { forall i :: 0 <= i < |hs| ==> GoodHeader(hs[i]) }

  predicate Good(r: Response) {
    && SP !in r.version && Tail(r.reason)
    && GoodHeaders(r.headers) && !Chunked(r.headers)
    && LengthOf(r.headers) == |r.body|
  }

  lemma UntilGives(s: bytes, d: byte, eatFinal: bool)
    ensures var p := TakeUntil(s, [d], eatFinal);
            p.Ok? ==> d !in p.value && p.value <= s && (s[0] != d ==> p.value != [])
  {
  }

  lemma WhileGives(s: bytes, d: byte)
    ensures var p := TakeWhile(s, [d], true); p.Ok? ==> p.rest != [] && p.rest[0] != d
  {
  }

  lemma WordGives(s: bytes)
    ensures var p := Word(s); p.Ok? ==> SP !in p.value && p.rest != [] && p.rest[0] != SP
  {
    hide TakeUntil, TakeWhile;
    UntilGives(s, SP, false);
    var p := TakeUntil(s, [SP], false);
    if p.Ok? {
      WhileGives(p.rest, SP);
    }
  }

  lemma StartLineGives(s: bytes)
    ensures var p := ParseStartLine(s);
            p.Ok? ==> SP !in p.value.first && SP !in p.value.second && p.value.second != []
                      && Tail(p.value.third) && Tail'(p.value.second)
  {
    hide Word, TakeUntil, ExpectCrlf;
    WordGives(s);
    var p1 := Word(s);
    if p1.Ok? {
      WordGives(p1.rest);
      WordNotEmpty(p1.rest);
      var p2 := Word(p1.rest);
      if p2.Ok? {
        UntilGives(p2.rest, CR, false);
      }
    }
  }

  predicate Tail'(v: bytes) { v != [] ==> v[0] != SP }

  lemma WordNotEmpty(s: bytes)
    ensures var p := Word(s); p.Ok? && s[0] != SP ==> p.value != [] && p.value[0] == s[0]
  {
  }

  lemma HeaderGives(s: bytes)
    ensures var p := ParseLooseHeader(s); p.Ok? && s[0] != CR ==> GoodHeader(p.value)
  {
    hide TakeUntil, TakeWhile, ExpectCrlf;
    UntilGives(s, COLON, true);
    var p1 := TakeUntil(s, [COLON], true);
    if p1.Ok? {
      WhileGives(p1.rest, SP);
      var p2 := TakeWhile(p1.rest, [SP], true);
      if p2.Ok? {
        UntilGives(p2.rest, CR, false);
      }
    }
  }

  lemma {:induction false} HeadersGive(s: bytes)
    ensures var p := ParseLooseHeaders(s); p.Ok? ==> GoodHeaders(p.value)
    decreases |s|
  {
    hide ParseLooseHeader, GoodHeader;
    if s != [] && s[0] != CR {
      HeaderGives(s);
      var p := ParseLooseHeader(s);
      if p.Ok? {
        HeadersGive(p.rest);
      }
    }
  }

  lemma LengthHeaderIsGood(n: nat)
    ensures GoodHeader((CONTENT_LENGTH, Decimal(n))) && Atoi(Decimal(n)) == n
    ensures CONTENT_LENGTH != TRANSFER_ENCODING && CONTENT_LENGTH != STRICT_TRANSPORT_SECURITY
  {
    AtoiDecimal(n);
    assert |CONTENT_LENGTH| == 14 && |TRANSFER_ENCODING| == 17 && |STRICT_TRANSPORT_SECURITY| == 25;
  }

  lemma BodyGives(hs: seq<Header>, chunked: bool, s: bytes)
    requires GoodHeaders(hs) && !Chunked(hs)
    ensures var p := ParseResponseBody(hs, chunked, s);
            p.Ok? ==> GoodHeaders(p.value.0) && !Chunked(p.value.0) && LengthOf(p.value.0) == |p.value.1|
  {
    hide ParseChunks, GoodHeader, Decimal;
    var p := ParseResponseBody(hs, chunked, s);
    if p.Ok? && p.value.0 != hs {
      var n := |p.value.1|;
      LengthHeaderIsGood(n);
      assert p.value.0 == hs + [(CONTENT_LENGTH, Decimal(n))];
      assert p.value.0[..|hs|] == hs;
    }
  }

  lemma ParsedIsGood(s: bytes)
    ensures var p := ParseResponse(s); p.Ok? ==> Good(p.value)
  {
    hide ParseStartLine, ParseLooseHeaders, ExpectCrlf, ParseResponseBody, GoodHeader, Chunked, LengthOf, Atoi;
    StartLineGives(s);
    var p1 := ParseStartLine(s);
    if p1.Ok? {
      HeadersGive(p1.rest);
      var p2 := ParseLooseHeaders(p1.rest);
      if p2.Ok? {
        var hs := Kept(p2.value);
        KeptIsGood(p2.value);
        var p3 := ExpectCrlf(p2.rest);
        if p3.Ok? {
          BodyGives(hs, Chunked(p2.value), p3.rest);
        }
      }
    }
  }

  lemma KeptIsGood(hs: seq<Header>)
    requires GoodHeaders(hs)
    ensures GoodHeaders(Kept(hs)) && !Chunked(Kept(hs))
  {
    hide GoodHeader;
    forall i | 0 <= i < |Kept(hs)| ensures GoodHeader(Kept(hs)[i]) {
      assert Kept(hs)[i] in hs;
    }
  }

  // ---- Reading back what was printed ----

  lemma WhilePiece(d: byte, s: bytes)
    requires s != [] && s[0] != d
    ensures TakeWhile([d] + s, [d], true) == Ok([d], s)
    ensures TakeWhile(s, [d], true) == Ok([], s)
  {
    FindUnique([d] + s, [d], false, 1);
    FindUnique(s, [d], false, 0);
    assert ([d] + s)[..1] == [d] && ([d] + s)[1..] == s;
    assert s[..0] == [] && s[0..] == s;
  }

  lemma WordPiece(word: bytes, s: bytes)
    requires SP !in word && s != [] && s[0] != SP
    ensures Word(word + [SP] + s) == Ok(word, s)
  {
    hide TakeWhile, TakeUntil;
    TakeUntilPiece(word, SP, s, false);
    WhilePiece(SP, s);
  }

  lemma CrlfPiece(s: bytes)
    ensures ExpectCrlf(CRLF + s) == Ok((), s)
  {
    SplitAppend(CRLF, s);
  }

  lemma UntilCrlf(value: bytes, s: bytes)
    requires CR !in value
    ensures TakeUntil(value + CRLF + s, [CR], false) == Ok(value, CRLF + s)
  {
    hide TakeUntil;
    TakeUntilPiece(value, CR, [LF] + s, false);
    assert value + CRLF + s == value + [CR] + ([LF] + s);
    assert CRLF + s == [CR] + ([LF] + s);
  }

  lemma LinePiece(a: bytes, b: bytes, c: bytes, s: bytes)
    requires SP !in a && SP !in b && b != [] && Tail(c)
    ensures ParseStartLine(LineText(a, b, c) + s) == Ok(StartLine(a, b, c), s)
  {
    hide Word, TakeUntil, ExpectCrlf;
    var end := c + CRLF + s;
    var rest := b + [SP] + end;
    assert LineText(a, b, c) + s == a + [SP] + rest;
    assert rest[0] == b[0] && b[0] in b;
    assert end[0] != SP;
    WordPiece(a, rest);
    WordPiece(b, end);
    UntilCrlf(c, s);
    CrlfPiece(s);
  }

  lemma HeaderPiece(h: Header, s: bytes)
    requires GoodHeader(h)
    ensures ParseLooseHeader(HeaderText(h) + s) == Ok(h, s)
    ensures (HeaderText(h) + s)[0] != CR
  {
    hide TakeUntil, TakeWhile, ExpectCrlf;
    var end := h.1 + CRLF + s;
    assert HeaderText(h) + s == h.0 + [COLON] + ([SP] + end);
    TakeUntilPiece(h.0, COLON, [SP] + end, true);
    assert end[0] != SP;
    WhilePiece(SP, end);
    UntilCrlf(h.1, s);
    CrlfPiece(s);
  }

  lemma {:induction false} HeadersPiece(hs: seq<Header>, s: bytes)
    requires GoodHeaders(hs)
    ensures ParseLooseHeaders(HeadersText(hs) + CRLF + s) == Ok(hs, CRLF + s)
  {
    hide ParseLooseHeader, HeaderText, GoodHeader;
    if hs == [] {
      assert [] + CRLF + s == CRLF + s;
    } else {
      var others := HeadersText(hs[1..]) + CRLF + s;
      assert HeadersText(hs) + CRLF + s == HeaderText(hs[0]) + others;
      HeaderPiece(hs[0], others);
      HeadersPiece(hs[1..], s);
      assert [hs[0]] + hs[1..] == hs;
    }
  }

  /** The head of a message, however it goes on. */
  function HeadText(version: bytes, status: int, reason: bytes, hs: seq<Header>): bytes {
    LineText(version, DecimalInt(status), reason) + HeadersText(hs) + CRLF
  }

  lemma DecimalIsWord(n: int)
    ensures SP !in DecimalInt(n) && DecimalInt(n) != [] && Atoi(DecimalInt(n)) == n
  {
    AtoiDecimal(n);
  }

  lemma HeadPiece(version: bytes, status: int, reason: bytes, hs: seq<Header>, s: bytes)
    requires SP !in version && Tail(reason) && GoodHeaders(hs)
    ensures ParseResponse(HeadText(version, status, reason, hs) + s) ==
            match ParseResponseBody(Kept(hs), Chunked(hs), s)
            case Ok(c, r) => Ok(Response(version, status, reason, c.0, c.1), r)
            case Again => Again
            case Bad => Bad
  {
    hide ParseStartLine, ParseLooseHeaders, ExpectCrlf, ParseResponseBody, LineText, HeadersText, Tail, DecimalInt,
        Atoi, GoodHeaders, Kept, Chunked;
    var rest := HeadersText(hs) + CRLF + s;
    assert HeadText(version, status, reason, hs) + s == LineText(version, DecimalInt(status), reason) + rest;
    DecimalIsWord(status);
    LinePiece(version, DecimalInt(status), reason, rest);
    HeadersPiece(hs, s);
    CrlfPiece(s);
  }

  lemma {:induction false} KeptAll(hs: seq<Header>)
    requires !Chunked(hs)
    ensures Kept(hs) == hs
  {
    if hs != [] {
      assert hs[0] in hs;
      assert forall h :: h in hs[1..] ==> h in hs;
      KeptAll(hs[1..]);
    }
  }

  lemma {:induction false} LengthWithoutSts(hs: seq<Header>)
    ensures LengthOf(WithoutSts(hs)) == LengthOf(hs)
  {
    if hs != [] {
      var front, last := hs[..|hs| - 1], hs[|hs| - 1];
      LengthHeaderIsGood(0);
      LengthWithoutSts(front);
      WithoutStsLast(front, last);
      assert front + [last] == hs;
      assert WithoutSts(front) + [] == WithoutSts(front);
      if last.0 != STRICT_TRANSPORT_SECURITY {
        assert (WithoutSts(front) + [last])[..|WithoutSts(front)|] == WithoutSts(front);
      }
    }
  }

  lemma {:induction false} WithoutStsLast(hs: seq<Header>, h: Header)
    ensures WithoutSts(hs + [h]) == WithoutSts(hs) + if h.0 == STRICT_TRANSPORT_SECURITY then [] else [h]
  {
    if hs == [] {
      assert [h][1..] == [];
    } else {
      assert (hs + [h])[1..] == hs[1..] + [h];
      WithoutStsLast(hs[1..], h);
    }
  }

  lemma GoodPrints(r: Response)
    requires Good(r)
    ensures ParseResponse(ToText(r)) == Ok(Rewritten(r), [])
  {
    hide ParseResponse, HeadersText, LineText, DecimalInt, GoodHeader, ParseChunks, LengthOf, Kept, WithoutSts;
    var hs := WithoutSts(r.headers);
    assert ToText(r) == HeadText(r.version, r.status, r.reason, hs) + r.body;
    forall i | 0 <= i < |hs| ensures GoodHeader(hs[i]) {
      assert hs[i] in r.headers;
    }
    assert !Chunked(hs);
    HeadPiece(r.version, r.status, r.reason, hs, r.body);
    KeptAll(hs);
    LengthWithoutSts(r.headers);
    assert r.body[..|r.body|] == r.body && r.body[|r.body|..] == [];
  }

  /** Whatever packet the proxy parses as a response, what it prints for it parses completely,
      and to the same response without Strict-Transport-Security. */
  lemma RewritePreservesMeaning(packet: bytes)
    requires ParseResponse(packet).Ok?
    ensures var r := ParseResponse(packet).value;
            ParseResponse(ToText(r)) == Ok(Rewritten(r), [])
  {
    hide ParseResponse, ToText, Good;
    ParsedIsGood(packet);
    GoodPrints(ParseResponse(packet).value);
  }

  lemma {:induction false} WithoutStsTwice(hs: seq<Header>)
    ensures WithoutSts(WithoutSts(hs)) == WithoutSts(hs)
  {
    if hs != [] {
      WithoutStsTwice(hs[1..]);
      if hs[0].0 != STRICT_TRANSPORT_SECURITY {
        assert ([hs[0]] + WithoutSts(hs[1..]))[1..] == WithoutSts(hs[1..]);
      }
    }
  }

  /** Rewriting what was already rewritten changes nothing. */
  lemma RewriteIdempotent(packet: bytes)
    requires ParseResponse(packet).Ok?
    ensures var once := ToText(ParseResponse(packet).value);
            ParseResponse(once).Ok? && ToText(ParseResponse(once).value) == once
  {
    hide ParseResponse, HeadersText, LineText;
    RewritePreservesMeaning(packet);
    WithoutStsTwice(ParseResponse(packet).value.headers);
  }

  // ---- Chunked bodies ----

  function HexDigitOf(d: nat): byte
    requires d < 16
  {
    if d < 10 then 48 + d else 87 + d
  }

  function Hex(n: nat): (r: bytes)
    ensures r != [] && forall i :: 0 <= i < |r| ==> IsHexDigit(r[i]) && r[i] != 120 && r[i] != 88
  {
    if n < 16 then [HexDigitOf(n)] else Hex(n / 16) + [HexDigitOf(n % 16)]
  }

  lemma {:induction false} HexValueAppend(a: bytes, b: bytes, acc: nat)
    requires forall i :: 0 <= i < |a| ==> IsHexDigit(a[i])
    ensures HexValue(a + b, acc) == HexValue(b, HexValue(a, acc))
  {
    if a == [] {
      assert a + b == b;
    } else {
      assert (a + b)[1..] == a[1..] + b;
      HexValueAppend(a[1..], b, acc * 16 + HexDigit(a[0]));
    }
  }

  lemma {:induction false} HexValueOf(n: nat)
    ensures HexValue(Hex(n), 0) == n
  {
    if n >= 16 {
      HexValueOf(n / 16);
      HexValueAppend(Hex(n / 16), [HexDigitOf(n % 16)], 0);
      assert [HexDigitOf(n % 16)][1..] == [];
    } else {
      assert [HexDigitOf(n)][1..] == [];
    }
  }

  lemma HexRoundTrip(n: nat)
    requires n < ULONG
    ensures Hex2Long(Hex(n)) == n && CR !in Hex(n)
  {
    HexValueOf(n);
    assert IsHexDigit(Hex(n)[0]);
  }

  function ChunkText(data: bytes): bytes { Hex(|data|) + CRLF + data + CRLF }

  function ChunksText(cs: seq<bytes>): bytes {
    if cs == [] then ChunkText([]) else ChunkText(cs[0]) + ChunksText(cs[1..])
  }

  function Join(cs: seq<bytes>): bytes {
    if cs == [] then [] else cs[0] + Join(cs[1..])
  }

  /** One chunk in front of anything. */
  lemma ChunkPiece(data: bytes, body: bytes, s: bytes)
    requires |data| < ULONG
    ensures ParseChunks(ChunkText(data) + s, body) == if data == [] then Ok(body, s) else ParseChunks(s, body + data)
  {
    hide TakeUntil, ExpectCrlf, Hex2Long, Hex;
    var s2 := data + (CRLF + s);
    assert ChunkText(data) + s == Hex(|data|) + CRLF + s2;
    HexRoundTrip(|data|);
    UntilCrlf(Hex(|data|), s2);
    CrlfPiece(s2);
    SplitAppend(data, CRLF + s);
    CrlfPiece(s);
  }

  lemma {:induction false} ChunksPiece(cs: seq<bytes>, body: bytes, s: bytes)
    requires forall i :: 0 <= i < |cs| ==> 0 < |cs[i]| < ULONG
    ensures ParseChunks(ChunksText(cs) + s, body) == Ok(body + Join(cs), s)
  {
    hide ParseChunks, ChunkText;
    if cs == [] {
      ChunkPiece([], body, s);
      assert body + [] == body;
    } else {
      assert ChunksText(cs) + s == ChunkText(cs[0]) + (ChunksText(cs[1..]) + s);
      ChunkPiece(cs[0], body, ChunksText(cs[1..]) + s);
      ChunksPiece(cs[1..], body + cs[0], s);
      assert body + cs[0] + Join(cs[1..]) == body + Join(cs);
    }
  }

  /** A chunked response, its Transfer-Encoding anywhere among headers that give no positive
      length, becomes one with the chunks joined and a matching Content-Length at the end;
      what follows the last chunk is left. */
  lemma ChunkedBodyJoined(version: bytes, status: int, reason: bytes, hs: seq<Header>, cs: seq<bytes>, t: bytes)
    requires SP !in version && Tail(reason) && GoodHeaders(hs) && Chunked(hs)
    requires LengthOf(Kept(hs)) <= 0
    requires forall i :: 0 <= i < |cs| ==> 0 < |cs[i]| < ULONG
    ensures ParseResponse(HeadText(version, status, reason, hs) + (ChunksText(cs) + t))
         == Ok(Response(version, status, reason, Kept(hs) + [(CONTENT_LENGTH, Decimal(|Join(cs)|))], Join(cs)), t)
  {
    hide ParseResponse, HeadText, ParseChunks, GoodHeaders, Tail, Chunked, Kept, LengthOf;
    HeadPiece(version, status, reason, hs, ChunksText(cs) + t);
    ChunksPiece(cs, [], t);
    assert [] + Join(cs) == Join(cs);
  }

  // ---- Forwarded requests ----

  /** "Accept-Encoding", "Proxy-Authorization", "Proxy-Connection" */
  const NOT_FORWARDED: set<bytes> := {
    [65, 99, 99, 101, 112, 116, 45, 69, 110, 99, 111, 100, 105, 110, 103],
    [80, 114, 111, 120, 121, 45, 65, 117, 116, 104, 111, 114, 105, 122, 97, 116, 105, 111, 110],
    [80, 114, 111, 120, 121, 45, 67, 111, 110, 110, 101, 99, 116, 105, 111, 110]
  }

  predicate Forwards(name: bytes, debug: bool) { debug || name !in NOT_FORWARDED }

  /** The header lines printed when the map is walked in the order `names`. */
  function ForwardedHeaders(headers: map<bytes, bytes>, names: seq<bytes>, debug: bool): (hs: seq<Header>)
    requires forall i :: 0 <= i < |names| ==> names[i] in headers
    ensures forall i :: 0 <= i < |hs| ==> hs[i].0 in headers && hs[i].1 == headers[hs[i].0]
  {
    if names == [] then []
    else
      var last := names[|names| - 1];
      ForwardedHeaders(headers, names[..|names| - 1], debug) +
      if Forwards(last, debug) then [(last, headers[last])] else []
  }

  function ForwardText(r: Request, names: seq<bytes>, debug: bool): bytes
    requires forall i :: 0 <= i < |names| ==> names[i] in r.headers
  {
    LineText(r.method_, r.uri, r.version) + HeadersText(ForwardedHeaders(r.headers, names, debug)) + CRLF + r.body
  }

  function Forwarded(r: Request, debug: bool): Request {
    r.(headers := map k | k in r.headers && Forwards(k, debug) :: r.headers[k])
  }

  predicate GoodStrictHeader(name: bytes, value: bytes) {
    COLON !in name && (name != [] ==> name[0] != CR) && name != TRANSFER_ENCODING && CR !in value
  }

  ghost predicate GoodMap(headers: map<bytes, bytes>) {
    forall k :: k in headers ==> GoodStrictHeader(k, headers[k])
  }

  lemma StrictHeaderGives(s: bytes)
    ensures var p := ParseHeader(s); p.Ok? && s[0] != CR ==> GoodStrictHeader(p.value.0, p.value.1)
  {
    hide TakeUntil, ExpectCrlf;
    UntilGives(s, COLON, true);
    var p1 := TakeUntil(s, [COLON], true);
    if p1.Ok? {
      var p2 := TakeByte(p1.rest);
      if p2.Ok? {
        UntilGives(p2.rest, CR, false);
      }
    }
  }

  lemma {:induction false} StrictHeadersGive(s: bytes, headers: map<bytes, bytes>)
    requires GoodMap(headers)
    ensures var p := ParseHeaders(s, headers); p.Ok? ==> GoodMap(p.value)
    decreases |s|
  {
    hide ParseHeader, GoodStrictHeader;
    if s != [] && s[0] != CR {
      StrictHeaderGives(s);
      var p := ParseHeader(s);
      if p.Ok? {
        StrictHeadersGive(p.rest, headers[p.value.0 := p.value.1]);
      }
    }
  }

  lemma StrictHeaderPiece(h: Header, s: bytes)
    requires GoodStrictHeader(h.0, h.1)
    ensures ParseHeader(HeaderText(h) + s) == Ok(h, s)
    ensures (HeaderText(h) + s)[0] != CR
  {
    hide TakeUntil, ExpectCrlf;
    var end := h.1 + CRLF + s;
    assert HeaderText(h) + s == h.0 + [COLON] + ([SP] + end);
    TakeUntilPiece(h.0, COLON, [SP] + end, true);
    assert ([SP] + end)[1..] == end;
    UntilCrlf(h.1, s);
    CrlfPiece(s);
  }

  /** Later headers replace earlier ones of the same name. */
  function Insert(headers: map<bytes, bytes>, hs: seq<Header>): map<bytes, bytes>
    decreases |hs|
  {
    if hs == [] then headers else Insert(headers[hs[0].0 := hs[0].1], hs[1..])
  }

  lemma {:induction false} StrictHeadersPiece(hs: seq<Header>, headers: map<bytes, bytes>, s: bytes)
    requires forall i :: 0 <= i < |hs| ==> GoodStrictHeader(hs[i].0, hs[i].1)
    ensures ParseHeaders(HeadersText(hs) + CRLF + s, headers) == Ok(Insert(headers, hs), CRLF + s)
    decreases |hs|
  {
    hide ParseHeader, HeaderText, GoodStrictHeader;
    if hs == [] {
      assert [] + CRLF + s == CRLF + s;
    } else {
      var others := HeadersText(hs[1..]) + CRLF + s;
      assert HeadersText(hs) + CRLF + s == HeaderText(hs[0]) + others;
      StrictHeaderPiece(hs[0], others);
      StrictHeadersPiece(hs[1..], headers[hs[0].0 := hs[0].1], s);
    }
  }

  lemma {:induction false} InsertLast(headers: map<bytes, bytes>, hs: seq<Header>, h: Header)
    ensures Insert(headers, hs + [h]) == Insert(headers, hs)[h.0 := h.1]
    decreases |hs|
  {
    if hs == [] {
      assert [h][1..] == [];
    } else {
      assert (hs + [h])[1..] == hs[1..] + [h];
      InsertLast(headers[hs[0].0 := hs[0].1], hs[1..], h);
    }
  }

  lemma {:induction false} InsertForwarded(headers: map<bytes, bytes>, names: seq<bytes>, debug: bool)
    requires forall i :: 0 <= i < |names| ==> names[i] in headers
    ensures Insert(map[], ForwardedHeaders(headers, names, debug))
         == map k | k in names && Forwards(k, debug) :: headers[k]
  {
    if names != [] {
      var front, last := names[..|names| - 1], names[|names| - 1];
      assert names == front + [last];
      InsertForwarded(headers, front, debug);
      var hs := ForwardedHeaders(headers, front, debug);
      InsertLast(map[], hs, (last, headers[last]));
      assert hs + [] == hs;
    }
  }

  /** Walking the header map in any order that visits every name once or more: what is forwarded
      parses completely, and to the request without the headers meant for the proxy. */
  lemma ForwardPreservesMeaning(packet: bytes, names: seq<bytes>, debug: bool)
    requires ParseRequest(packet).Ok?
    requires forall k :: k in names <==> k in ParseRequest(packet).value.headers
    ensures var r := ParseRequest(packet).value;
            ParseRequest(ForwardText(r, names, debug)) == Ok(Forwarded(r, debug), [])
  {
    hide ParseStartLine, ParseHeaders, ExpectCrlf, ContentLength, LineText, HeadersText, GoodStrictHeader, Insert,
        Forwards;
    StartLineGives(packet);
    var line := ParseStartLine(packet);
    StrictHeadersGive(line.rest, map[]);
    var r := ParseRequest(packet).value;
    var hs := ForwardedHeaders(r.headers, names, debug);
    var rest := HeadersText(hs) + CRLF + r.body;
    assert ForwardText(r, names, debug) == LineText(r.method_, r.uri, r.version) + rest;
    LinePiece(r.method_, r.uri, r.version, rest);
    StrictHeadersPiece(hs, map[], r.body);
    InsertForwarded(r.headers, names, debug);
    assert Insert(map[], hs) == Forwarded(r, debug).headers;
    CrlfPiece(r.body);
    LengthForwarded(r, debug);
    assert r.body[..|r.body|] == r.body && r.body[|r.body|..] == [];
  }

  lemma LengthForwarded(r: Request, debug: bool)
    ensures ContentLength(Forwarded(r, debug).headers) == ContentLength(r.headers)
  {
    assert |CONTENT_LENGTH| == 14;
    assert forall n :: n in NOT_FORWARDED ==> |n| >= 15;
  }

  // ---- The proxy's parser and printers as the source runs them ----

  method ReadChunks(s: StreamReader) returns (r: Outcome<bytes>)
    requires s.Valid()
    modifies s
    ensures s.Valid() && Agrees(r, ParseChunks(old(s.Rest()), []), s.Rest())
  {
    hide TakeUntil, ExpectCrlf, Hex2Long;
    var body := [];
    ghost var goal := ParseChunks(s.Rest(), []);
    while true
      invariant s.Valid() && ParseChunks(s.Rest(), body) == goal
      decreases |s.Rest()|
    {
      var digits :- s.ReadUntil([CR]);
      var length := Hex2Long(digits);
      var _ :- ReadCrlf(s);
      var data := [];
      if length > 0 {
        data :- s.ReadSize(length);
      }
      var _ :- ReadCrlf(s);
      if length == 0 {
        return Got(body);
      }
      body := body + data;
    }
  }

  /** The headers kept, whether the body is chunked, and the last Content-Length. */
  method ReadLooseHeaders(s: StreamReader) returns (r: Outcome<(seq<Header>, bool, int)>)
    requires s.Valid()
    modifies s
    ensures s.Valid()
    ensures match ParseLooseHeaders(old(s.Rest()))
            case Ok(hs, rest) => r == Got((Kept(hs), Chunked(hs), LengthOf(Kept(hs)))) && s.Rest() == rest
            case Again => r == AG
            case Bad => r == NG
  {
    hide ParseLooseHeader, Kept, LengthOf;
    var kept: seq<Header>, chunked, length := [], false, -1;
    ghost var seen: seq<Header>, goal := [], ParseLooseHeaders(s.Rest());
    HeadersSoFar([], ParseLooseHeaders(s.Rest()));
    while true
      invariant s.Valid() && After(seen, ParseLooseHeaders(s.Rest())) == goal
      invariant kept == Kept(seen) && chunked == Chunked(seen) && length == LengthOf(kept)
      decreases |s.Rest()|
    {
      var next :- s.PreadPlain();
      if next == CR {
        assert seen + [] == seen;
        return Got((kept, chunked, length));
      }
      var h :- ReadLooseHeader(s);
      HeadersStep(seen, h, ParseLooseHeaders(s.Rest()));
      seen := seen + [h];
      if h.0 == TRANSFER_ENCODING {
        chunked := true;
        continue;
      }
      kept := kept + [h];
      if h.0 == CONTENT_LENGTH {
        length := Atoi(h.1);
      }
    }
  }

  function After(seen: seq<Header>, p: Parse<seq<Header>>): Parse<seq<Header>> {
    match p
    case Ok(hs, r) => Ok(seen + hs, r)
    case Again => Again
    case Bad => Bad
  }

  lemma HeadersSoFar(seen: seq<Header>, p: Parse<seq<Header>>)
    ensures After([], p) == p && Kept([]) == [] && LengthOf([]) == -1
  {
    assert p.Ok? ==> [] + p.value == p.value;
  }

  lemma HeadersStep(seen: seq<Header>, h: Header, p: Parse<seq<Header>>)
    ensures p.Ok? ==> After(seen, Ok([h] + p.value, p.rest)) == After(seen + [h], p)
    ensures Kept(seen + [h]) == if h.0 == TRANSFER_ENCODING then Kept(seen) else Kept(seen) + [h]
    ensures Chunked(seen + [h]) == (Chunked(seen) || h.0 == TRANSFER_ENCODING)
    ensures LengthOf(Kept(seen) + [h]) == if h.0 == CONTENT_LENGTH then Atoi(h.1) else LengthOf(Kept(seen))
  {
    assert p.Ok? ==> seen + ([h] + p.value) == seen + [h] + p.value;
    KeptLast(seen, h);
    assert (Kept(seen) + [h])[..|Kept(seen)|] == Kept(seen);
    assert h in seen + [h] && forall x :: x in seen ==> x in seen + [h];
  }

  lemma {:induction false} KeptLast(hs: seq<Header>, h: Header)
    ensures Kept(hs + [h]) == Kept(hs) + if h.0 == TRANSFER_ENCODING then [] else [h]
  {
    if hs == [] {
      assert [h][1..] == [];
    } else {
      assert (hs + [h])[1..] == hs[1..] + [h];
      KeptLast(hs[1..], h);
    }
  }

  method ReadLooseHeader(s: StreamReader) returns (r: Outcome<Header>)
    requires s.Valid()
    modifies s
    ensures s.Valid() && Agrees(r, ParseLooseHeader(old(s.Rest())), s.Rest())
  {
    hide TakeUntil, TakeWhile, ExpectCrlf;
    var name :- s.ReadUntil([COLON], true);
    var _ :- s.ReadUp([SP]);
    var value :- s.ReadUntil([CR]);
    var _ :- ReadCrlf(s);
    if name == TRANSFER_ENCODING {
      var _ :- s.FailIf(value != CHUNKED);
    }
    r := Got((name, value));
  }

  method ReadResponse(s: StreamReader) returns (r: Outcome<Response>)
    requires s.Valid()
    modifies s
    ensures s.Valid() && Agrees(r, ParseResponse(old(s.Rest())), s.Rest())
  {
    hide ParseStartLine, ParseLooseHeaders, ExpectCrlf, ParseChunks, Kept, Chunked, LengthOf, Atoi, Decimal;
    var line :- ReadStartLine(s);
    var read :- ReadLooseHeaders(s);
    var (headers, chunked, length) := read;
    var _ :- ReadCrlf(s);
    var body := [];
    if length > 0 {
      body :- s.ReadSize(length);
    } else if chunked {
      body :- ReadChunks(s);
      headers := headers + [(CONTENT_LENGTH, Decimal(|body|))];
    } else if length == 0 {
    } else if length == -1 && s.End() {
      headers := headers + [(CONTENT_LENGTH, Decimal(0))];
    } else {
      return NG;
    }
    r := Got(Response(line.first, Atoi(line.second), line.third, headers, body));
  }

  method ToString(r: Response) returns (text: bytes)
    ensures text == ToText(r)
  {
    hide LineText, HeaderText;
    var headers := [];
    for i := 0 to |r.headers|
      invariant headers + HeadersText(WithoutSts(r.headers[i..])) == HeadersText(WithoutSts(r.headers))
    {
      assert r.headers[i..][0] == r.headers[i] && r.headers[i..][1..] == r.headers[i + 1..];
      if r.headers[i].0 == STRICT_TRANSPORT_SECURITY {
        continue;
      }
      assert WithoutSts(r.headers[i..])[1..] == WithoutSts(r.headers[i + 1..]);
      headers := headers + HeaderText(r.headers[i]);
    }
    text := LineText(r.version, DecimalInt(r.status), r.reason) + headers + CRLF + r.body;
  }
}
