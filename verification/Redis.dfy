/** The RESP client: a recursive reply parser, the command encoder, and the matching of
    replies to callbacks (Protocol/Client/Redis.cpp, Redis.h). */
module RedisProtocol {
  import opened Bytes
  import opened Reader
  import opened Chunking
  import opened Bufferables

  const DOLLAR: byte := 36
  const STAR: byte := 42

  /** `kind` is the type byte; a null bulk string has kind SP. */
  datatype Reply = Reply(kind: byte, text: bytes, elements: seq<Reply>)

  predicate IsLine(kind: byte) { kind == PLUS || kind == MINUS || kind == COLON }

  /** Everything up to CR LF. */
  function ParseLine(s: bytes): (p: Parse<bytes>)
    ensures p.Ok? ==> |p.rest| < |s|
    ensures s == [] ==> p.Again?
  {
    var (line, s1) :- TakeUntil(s, [CR], true);
    var (lf, s2) :- TakeByte(s1);
    var (_, s3) :- Reject(lf != LF, s2);
    Ok(line, s3)
  }

  function ParseBulk(length: int, s: bytes): (p: Parse<Reply>)
    ensures p.Ok? ==> |p.rest| <= |s|
  {
    if length < 0 then Ok(Reply(SP, [], []), s) else
    var (text, s1) :- TakeSize(s, length);
    var (crlf, s2) :- TakeSize(s1, 2);
    var (_, s3) :- Reject(crlf != CRLF, s2);
    Ok(Reply(DOLLAR, text, []), s3)
  }

  function ParseReply(s: bytes): (p: Parse<Reply>)
    ensures p.Ok? ==> |p.rest| < |s|
    ensures s == [] ==> p.Again?
    decreases |s|, 0
  {
    var (kind, s1) :- TakeByte(s);
    if IsLine(kind) then
      var (line, s2) :- ParseLine(s1);
      Ok(Reply(kind, line, []), s2)
    else if kind == DOLLAR then
      var (line, s2) :- ParseLine(s1);
      ParseBulk(Atoi(line), s2)
    else if kind == STAR then
      var (line, s2) :- ParseLine(s1);
      var length := Atoi(line);
      var (elements, s3) :- ParseReplies(s2, if length > 0 then length else 0);
      Ok(Reply(STAR, [], elements), s3)
    else
      Ok(Reply(kind, [], []), s1)
  }

  function ParseReplies(s: bytes, n: nat): (p: Parse<seq<Reply>>)
    ensures p.Ok? ==> |p.rest| <= |s| && |p.value| == n
    decreases |s|, 1, n
  {
    if n == 0 then Ok([], s) else
    var (first, s1) :- ParseReply(s);
    var (others, s2) :- ParseReplies(s1, n - 1);
    Ok([first] + others, s2)
  }

  // ---- More input does not change a decided reply ----

  lemma LineExtends(s: bytes, t: bytes)
    ensures Extends(ParseLine(s), t, ParseLine(s + t))
  {
    TakeUntilExtends(s, t, [CR], true);
    var p := TakeUntil(s, [CR], true);
    if p.Ok? {
      TakeByteExtends(p.rest, t);
    }
  }

  lemma BulkExtends(length: int, s: bytes, t: bytes)
    ensures Extends(ParseBulk(length, s), t, ParseBulk(length, s + t))
  {
    if length >= 0 {
      TakeSizeExtends(s, t, length);
      var p := TakeSize(s, length);
      if p.Ok? {
        TakeSizeExtends(p.rest, t, 2);
      }
    }
  }

  lemma {:induction false} ReplyExtends(s: bytes, t: bytes)
    ensures Extends(ParseReply(s), t, ParseReply(s + t))
    decreases |s|, 0
  {
    hide ParseLine, ParseBulk, Atoi, IsLine;
    TakeByteExtends(s, t);
    var p1 := TakeByte(s);
    if p1.Ok? {
      LineExtends(p1.rest, t);
      var p2 := ParseLine(p1.rest);
      if p2.Ok? {
        var length := Atoi(p2.value);
        BulkExtends(length, p2.rest, t);
        RepliesExtend(p2.rest, t, if length > 0 then length else 0);
      }
    }
  }

  lemma {:induction false} RepliesExtend(s: bytes, t: bytes, n: nat)
    ensures Extends(ParseReplies(s, n), t, ParseReplies(s + t, n))
    decreases |s|, 1, n
  {
    if n > 0 {
      ReplyExtends(s, t);
      var p := ParseReply(s);
      if p.Ok? {
        RepliesExtend(p.rest, t, n - 1);
      }
    }
  }

  lemma ReplyStable()
    ensures Stable(ParseReply)
  {
    forall s, t ensures Extends(ParseReply(s), t, ParseReply(s + t)) {
      ReplyExtends(s, t);
    }
  }

  // ---- Encoding ----

  function Line(kind: byte, text: bytes): bytes { [kind] + text + CRLF }

  /** RESP text of a value. */
  function Encode(r: Reply): bytes {
    if r.kind == DOLLAR then Line(DOLLAR, Decimal(|r.text|)) + r.text + CRLF
    else if r.kind == STAR then Line(STAR, Decimal(|r.elements|)) + EncodeAll(r.elements)
    else if r.kind == SP then Line(DOLLAR, DecimalInt(-1))
    else Line(r.kind, r.text)
  }

  function EncodeAll(rs: seq<Reply>): bytes {
    if rs == [] then [] else Encode(rs[0]) + EncodeAll(rs[1..])
  }

  /** The values RESP can carry: lines without CR, bulk strings of any bytes, arrays of values. */
  ghost predicate Value(r: Reply) {
    && (r.kind == STAR ==> r.text == [] && forall i :: 0 <= i < |r.elements| ==> Value(r.elements[i]))
    && (r.kind != STAR ==> r.elements == [])
    && (r.kind == SP ==> r.text == [])
    && (r.kind in {STAR, DOLLAR, SP} || (IsLine(r.kind) && CR !in r.text))
  }

  lemma LineRoundTrip(text: bytes, t: bytes)
    requires CR !in text
    ensures ParseLine(text + CRLF + t) == Ok(text, t)
  {
    assert text + CRLF + t == text + [CR] + ([LF] + t);
    TakeUntilPiece(text, CR, [LF] + t, true);
    assert ([LF] + t)[1..] == t;
  }

  lemma LineHead(kind: byte, text: bytes, t: bytes)
    ensures Line(kind, text) != []
    ensures (Line(kind, text) + t)[0] == kind && (Line(kind, text) + t)[1..] == text + CRLF + t
  {
  }

  lemma DecimalOf(n: nat)
    ensures DecimalInt(n) == Decimal(n)
  {
  }

  lemma HeaderRoundTrip(kind: byte, n: int, t: bytes)
    ensures var s := Line(kind, DecimalInt(n)) + t;
            s != [] && s[0] == kind && ParseLine(s[1..]) == Ok(DecimalInt(n), t) && Atoi(DecimalInt(n)) == n
  {
    var d := DecimalInt(n);
    assert CR !in d;
    LineRoundTrip(d, t);
    assert (Line(kind, d) + t)[1..] == d + CRLF + t;
    AtoiDecimal(n);
  }

  lemma BulkRoundTrip(text: bytes, t: bytes)
    ensures ParseBulk(|text|, text + CRLF + t) == Ok(Reply(DOLLAR, text, []), t)
  {
    var s := text + CRLF + t;
    assert s[..|text|] == text && s[|text|..] == CRLF + t;
    assert (CRLF + t)[..2] == CRLF && (CRLF + t)[2..] == t;
  }

  lemma NullBulkRoundTrip(t: bytes)
    ensures ParseReply(Line(DOLLAR, DecimalInt(-1)) + t) == Ok(Reply(SP, [], []), t)
  {
    HeaderRoundTrip(DOLLAR, -1, t);
    hide ParseLine, Line, DecimalInt, Atoi;
    var s := Line(DOLLAR, DecimalInt(-1)) + t;
    assert TakeByte(s) == Ok(DOLLAR, s[1..]);
  }

  /** Every value, however nested, parses back in front of anything. */
  lemma {:induction false} ReplyRoundTrip(r: Reply, t: bytes)
    requires Value(r)
    ensures ParseReply(Encode(r) + t) == Ok(r, t)
    decreases r, 0
  {
    hide ParseLine, ParseBulk, Line, Decimal, DecimalInt, Atoi;
    var s := Encode(r) + t;
    if r.kind == DOLLAR {
      var body := r.text + CRLF + t;
      assert s == Line(DOLLAR, Decimal(|r.text|)) + body;
      DecimalOf(|r.text|);
      HeaderRoundTrip(DOLLAR, |r.text|, body);
      BulkRoundTrip(r.text, t);
    } else if r.kind == STAR {
      var body := EncodeAll(r.elements) + t;
      assert s == Line(STAR, Decimal(|r.elements|)) + body;
      DecimalOf(|r.elements|);
      HeaderRoundTrip(STAR, |r.elements|, body);
      RepliesRoundTrip(r.elements, t);
    } else if r.kind == SP {
      NullBulkRoundTrip(t);
    } else {
      LineRoundTrip(r.text, t);
      LineHead(r.kind, r.text, t);
    }
  }

  lemma {:induction false} RepliesRoundTrip(rs: seq<Reply>, t: bytes)
    requires forall i :: 0 <= i < |rs| ==> Value(rs[i])
    ensures ParseReplies(EncodeAll(rs) + t, |rs|) == Ok(rs, t)
    decreases rs, 1
  {
    hide ParseReply, Encode;
    if rs == [] {
      assert [] + t == t;
    } else {
      assert EncodeAll(rs) + t == Encode(rs[0]) + (EncodeAll(rs[1..]) + t);
      ReplyRoundTrip(rs[0], EncodeAll(rs[1..]) + t);
      RepliesRoundTrip(rs[1..], t);
      assert [rs[0]] + rs[1..] == rs;
    }
  }

  // ---- Commands ----

  /** The argument types resp_encode is overloaded for. */
  datatype Arg = BulkString(s: bytes) | NullBulk | Integer(n: nat)

  function RespEncode(a: Arg): bytes {
    match a
    case BulkString(s) => Line(DOLLAR, Decimal(|s|)) + s + CRLF
    case NullBulk => Line(DOLLAR, [MINUS, 49])
    case Integer(n) => Line(COLON, Decimal(n))
  }

  function RespEncodeElements(args: seq<Arg>): bytes {
    if args == [] then [] else RespEncode(args[0]) + RespEncodeElements(args[1..])
  }

  function CreateCmd(args: seq<Arg>): bytes
    requires args != []
  {
    Line(STAR, Decimal(|args|)) + RespEncodeElements(args)
  }

  function Meaning(a: Arg): Reply {
    match a
    case BulkString(s) => Reply(DOLLAR, s, [])
    case NullBulk => Reply(SP, [], [])
    case Integer(n) => Reply(COLON, Decimal(n), [])
  }

  lemma {:induction false} ElementsAreValues(args: seq<Arg>)
    ensures RespEncodeElements(args) == EncodeAll(Map(args))
    ensures forall i :: 0 <= i < |args| ==> Value(Map(args)[i])
  {
    if args != [] {
      assert Map(args)[1..] == Map(args[1..]);
      ElementsAreValues(args[1..]);
      assert Decimal(1) == [49];
    }
  }

  function Map(args: seq<Arg>): (rs: seq<Reply>)
    ensures |rs| == |args|
    ensures forall i :: 0 <= i < |args| ==> rs[i] == Meaning(args[i])
  {
    seq(|args|, i requires 0 <= i < |args| => Meaning(args[i]))
  }

  /** A command followed by anything reads back as the array of exactly its arguments, bytes
      CR and LF included, and exactly the command is consumed. */
  lemma CommandRoundTrip(args: seq<Arg>, t: bytes)
    requires args != []
    ensures ParseReply(CreateCmd(args) + t) == Ok(Reply(STAR, [], Map(args)), t)
  {
    ElementsAreValues(args);
    ReplyRoundTrip(Reply(STAR, [], Map(args)), t);
  }

  // ---- The parser as the source runs it ----

  /** Elements already read, in front of those still to come. */
  function Prepend(before: seq<Reply>, p: Parse<seq<Reply>>): Parse<seq<Reply>> {
    match p
    case Ok(v, r) => Ok(before + v, r)
    case Again => Again
    case Bad => Bad
  }

  lemma RepliesNone(s: bytes)
    ensures ParseReplies(s, 0) == Ok([], s)
  {
  }

  lemma PrependStep(before: seq<Reply>, s: bytes, n: nat)
    requires n > 0
    ensures match ParseReply(s)
            case Ok(v, r) => Prepend(before, ParseReplies(s, n)) == Prepend(before + [v], ParseReplies(r, n - 1))
            case Again => ParseReplies(s, n).Again?
            case Bad => ParseReplies(s, n).Bad?
  {
    var q := ParseReply(s);
    if q.Ok? {
      var p := ParseReplies(q.rest, n - 1);
      assert p.Ok? ==> before + [q.value] + p.value == before + ([q.value] + p.value);
    }
  }

  method ReadLine(s: StreamReader) returns (r: Outcome<bytes>)
    requires s.Valid()
    modifies s
    ensures s.Valid() && Agrees(r, ParseLine(old(s.Rest())), s.Rest())
  {
    var line :- s.ReadUntil([CR], true);
    var next :- s.ReadPlain();
    var _ :- s.FailIf(next != LF);
    r := Got(line);
  }

  method ReadBulk(s: StreamReader, length: int) returns (r: Outcome<Reply>)
    requires s.Valid()
    modifies s
    ensures s.Valid() && Agrees(r, ParseBulk(length, old(s.Rest())), s.Rest())
  {
    if length >= 0 {
      var text := [];
      if length > 0 {
        text :- s.ReadSize(length);
      }
      var crlf :- s.ReadSize(2);
      var _ :- s.FailIf(crlf != CRLF);
      r := Got(Reply(DOLLAR, text, []));
    } else {
      r := Got(Reply(SP, [], []));
    }
  }

  method ParseResponse(s: StreamReader) returns (r: Outcome<Reply>)
    requires s.Valid()
    modifies s
    ensures s.Valid() && Agrees(r, ParseReply(old(s.Rest())), s.Rest())
    decreases |s.str| - s.offset, 0
  {
    hide ParseLine, ParseBulk, ParseReplies, Atoi, IsLine;
    var kind :- s.ReadPlain();
    if IsLine(kind) {
      var text :- ReadLine(s);
      r := Got(Reply(kind, text, []));
    } else if kind == DOLLAR {
      var line :- ReadLine(s);
      r := ReadBulk(s, Atoi(line));
    } else if kind == STAR {
      var line :- ReadLine(s);
      var length := Atoi(line);
      var elements := [];
      if length > 0 {
        elements :- ParseElements(s, length);
      } else {
        RepliesNone(s.Rest());
      }
      r := Got(Reply(STAR, [], elements));
    } else {
      r := Got(Reply(kind, [], []));
    }
  }

  method ParseElements(s: StreamReader, length: nat) returns (r: Outcome<seq<Reply>>)
    requires s.Valid()
    modifies s
    ensures s.Valid() && Agrees(r, ParseReplies(old(s.Rest()), length), s.Rest())
    decreases |s.str| - s.offset, 1
  {
    hide ParseReply, ParseReplies;
    var elements := [];
    ghost var goal := ParseReplies(s.Rest(), length);
    assert goal.Ok? ==> [] + goal.value == goal.value;
    for i := 0 to length
      invariant s.Valid() && s.offset >= old(s.offset)
      invariant Prepend(elements, ParseReplies(s.Rest(), length - i)) == goal
    {
      PrependStep(elements, s.Rest(), length - i);
      var e :- ParseResponse(s);
      elements := elements + [e];
    }
    assert elements + [] == elements;
    assert ParseReplies(s.Rest(), 0) == Ok([], s.Rest()) by { RepliesNone(s.Rest()); }
    r := Got(elements);
  }

  // ---- Replies and callbacks ----

  type Callback = int

  datatype ClientState = ClientState(pending: seq<Callback>, fired: seq<(Callback, Reply)>, buf: bytes, closed: bool)

  /** The loop of on_message: a reply with no callback waiting ends it and drops what follows. */
  function Answer(c: ClientState): ClientState
    decreases |c.buf|
  {
    match ParseReply(c.buf)
    case Again => c
    case Bad => c.(buf := [], closed := true)
    case Ok(r, rest) =>
      if c.pending == [] then c.(buf := [])
      else Answer(ClientState(c.pending[1..], c.fired + [(c.pending[0], r)], rest, c.closed))
  }

  function Zip(cbs: seq<Callback>, rs: seq<Reply>): (r: seq<(Callback, Reply)>)
    requires |rs| <= |cbs|
  {
    seq(|rs|, i requires 0 <= i < |rs| => (cbs[i], rs[i]))
  }

  /** Exactly what one call does: with a callback for every complete reply, the i-th reply goes
      to the i-th callback and nothing else is lost; with fewer, the first replies are matched and
      everything after the first unmatched one, including an incomplete tail, is discarded. */
  lemma {:induction false} AnswerExact(c: ClientState, got: seq<Reply>)
    requires !c.closed
    ensures var d := Drain(ParseReply, Never, Conn(got, c.buf, false));
            && got <= d.got
            && var new_ := d.got[|got|..];
            Answer(c) == if |new_| <= |c.pending| then
                           ClientState(c.pending[|new_|..], c.fired + Zip(c.pending, new_), d.buf, d.closed)
                         else
                           ClientState([], c.fired + Zip(c.pending, new_[..|c.pending|]), [], false)
    decreases |c.buf|
  {
    hide ParseReply;
    var q := ParseReply(c.buf);
    if q.Ok? {
      var d := Drain(ParseReply, Never, Conn(got + [q.value], q.rest, false));
      DrainGrows(Conn(got + [q.value], q.rest, false));
      if c.pending != [] {
        var c' := ClientState(c.pending[1..], c.fired + [(c.pending[0], q.value)], q.rest, false);
        AnswerExact(c', got + [q.value]);
        var new_ := d.got[|got|..];
        assert new_[0] == q.value && new_[1..] == d.got[|got| + 1..];
        if |new_| <= |c.pending| {
          assert c.pending[1..][|new_| - 1..] == c.pending[|new_|..];
          assert c'.fired + Zip(c.pending[1..], new_[1..]) == c.fired + Zip(c.pending, new_);
        } else {
          assert new_[1..][..|c.pending| - 1] == new_[..|c.pending|][1..];
          assert c'.fired + Zip(c.pending[1..], new_[1..][..|c.pending| - 1])
              == c.fired + Zip(c.pending, new_[..|c.pending|]);
        }
      }
    }
  }

  lemma DrainGrows(c: Conn<Reply>)
    ensures c.got <= Drain(ParseReply, Never, c).got
  {
    ReplyStable();
    FeedOnlyAdds(ParseReply, Never, c);
  }

  // ---- Whole runs: registrations and chunks in any order ----

  datatype Event = Register(cb: Callback) | Chunk(data: bytes)

  function Step(c: ClientState, e: Event): ClientState {
    match e
    case Register(cb) => c.(pending := c.pending + [cb])
    case Chunk(data) => if c.closed then c else Answer(c.(buf := c.buf + data))
  }

  function Run(es: seq<Event>): ClientState {
    if es == [] then ClientState([], [], [], false) else Step(Run(es[..|es| - 1]), es[|es| - 1])
  }

  function Registered(es: seq<Event>): seq<Callback> {
    if es == [] then [] else
    var before, e := Registered(es[..|es| - 1]), es[|es| - 1];
    if e.Register? then before + [e.cb] else before
  }

  function Chunks(es: seq<Event>): seq<bytes> {
    if es == [] then [] else
    var before, e := Chunks(es[..|es| - 1]), es[|es| - 1];
    if e.Chunk? then before + [e.data] else before
  }

  /** The stream received, parsed with no regard to callbacks. */
  function Parsed(es: seq<Event>): Conn<Reply> {
    FeedAll(ParseReply, Never, Fresh(), Chunks(es))
  }

  /** The server never sends more replies than there were requests. */
  ghost predicate NoSurplus(es: seq<Event>) {
    forall k {:trigger es[..k]} :: 0 <= k <= |es| ==> |Parsed(es[..k]).got| <= |Registered(es[..k])|
  }

  /** For any interleaving of registrations and chunks, and any chunking: the i-th reply of the
      stream goes to the i-th callback registered, the callbacks still waiting are the remaining
      ones in order, and no byte of an incomplete reply is lost. */
  lemma {:induction false} RepliesInOrder(es: seq<Event>)
    requires NoSurplus(es)
    ensures |Parsed(es).got| <= |Registered(es)|
    ensures var d := Parsed(es);
            Run(es) == ClientState(Registered(es)[|d.got|..], Zip(Registered(es), d.got), d.buf, d.closed)
  {
    hide ParseReply, Answer, FeedAll, Drain;
    assert es[..|es|] == es;
    if es == [] {
      FeedNothing();
    } else {
      var front, e := es[..|es| - 1], es[|es| - 1];
      forall k | 0 <= k <= |front| ensures |Parsed(front[..k]).got| <= |Registered(front[..k])| {
        assert front[..k] == es[..k];
      }
      RepliesInOrder(front);
      var d0, cbs := Parsed(front), Registered(front);
      match e
      case Register(cb) =>
        assert (cbs + [cb])[|d0.got|..] == cbs[|d0.got|..] + [cb];
        assert Zip(cbs + [cb], d0.got) == Zip(cbs, d0.got);
      case Chunk(data) =>
        assert Chunks(es)[..|Chunks(es)| - 1] == Chunks(front);
        FeedOne(Chunks(front), data);
        if !d0.closed {
          AnswerNext(cbs, d0, data);
        }
    }
  }

  /** No callback is lost: each has fired or is waiting. */
  lemma {:induction false} CallbacksKept(es: seq<Event>)
    ensures |Run(es).fired| + |Run(es).pending| == |Registered(es)|
    decreases |es|
  {
    hide Answer;
    if es != [] {
      var c, e := Run(es[..|es| - 1]), es[|es| - 1];
      CallbacksKept(es[..|es| - 1]);
      if e.Chunk? {
        AnswerCount(c.(buf := c.buf + e.data));
      }
    }
  }

  lemma {:induction false} AnswerCount(c: ClientState)
    ensures |Answer(c).fired| + |Answer(c).pending| == |c.fired| + |c.pending|
    decreases |c.buf|
  {
    hide ParseReply;
    var q := ParseReply(c.buf);
    if q.Ok? && c.pending != [] {
      AnswerCount(ClientState(c.pending[1..], c.fired + [(c.pending[0], q.value)], q.rest, c.closed));
    }
  }

  /** Every complete reply of the stream has gone to a callback. */
  ghost predicate AllAnswered(es: seq<Event>) { |Run(es).fired| == |Parsed(es).got| }

  /** And only then: at every moment every complete reply has gone to a callback if and only if there never
      were more replies than registrations. */
  lemma NoSurplusIff(es: seq<Event>)
    ensures NoSurplus(es) <==> forall k {:trigger es[..k]} :: 0 <= k <= |es| ==> AllAnswered(es[..k])
  {
    hide Parsed, Run, Registered;
    if NoSurplus(es) {
      forall k | 0 <= k <= |es| ensures AllAnswered(es[..k]) {
        forall j | 0 <= j <= k ensures |Parsed(es[..k][..j]).got| <= |Registered(es[..k][..j])| {
          assert es[..k][..j] == es[..j];
        }
        RepliesInOrder(es[..k]);
      }
    } else {
      var k :| 0 <= k <= |es| && |Parsed(es[..k]).got| > |Registered(es[..k])|;
      CallbacksKept(es[..k]);
      assert !AllAnswered(es[..k]);
    }
  }

  /** So neither the chunking nor when the callbacks were registered matters. */
  lemma InterleavingDoesNotMatter(xs: seq<Event>, ys: seq<Event>)
    requires NoSurplus(xs) && NoSurplus(ys)
    requires Registered(xs) == Registered(ys) && Flatten(Chunks(xs)) == Flatten(Chunks(ys))
    ensures Run(xs) == Run(ys)
  {
    ReplyStable();
    ChunkingDoesNotMatter(ParseReply, Never, Chunks(xs), Chunks(ys));
    RepliesInOrder(xs);
    RepliesInOrder(ys);
  }

  lemma FeedNothing()
    ensures FeedAll(ParseReply, Never, Fresh(), []) == Fresh()
  {
  }

  lemma FeedOne(chunks: seq<bytes>, data: bytes)
    ensures FeedAll(ParseReply, Never, Fresh(), chunks + [data])
         == Feed(ParseReply, Never, FeedAll(ParseReply, Never, Fresh(), chunks), data)
  {
    assert (chunks + [data])[..|chunks|] == chunks;
  }

  lemma AnswerNext(cbs: seq<Callback>, d0: Conn<Reply>, data: bytes)
    requires !d0.closed && |d0.got| <= |cbs|
    requires |Feed(ParseReply, Never, d0, data).got| <= |cbs|
    ensures var d := Feed(ParseReply, Never, d0, data);
            && Answer(ClientState(cbs[|d0.got|..], Zip(cbs, d0.got), d0.buf + data, false))
            == ClientState(cbs[|d.got|..], Zip(cbs, d.got), d.buf, d.closed)
  {
    hide ParseReply, Answer, Drain;
    var d := Feed(ParseReply, Never, d0, data);
    AnswerExact(ClientState(cbs[|d0.got|..], Zip(cbs, d0.got), d0.buf + data, false), d0.got);
    var new_ := d.got[|d0.got|..];
    assert cbs[|d0.got|..][|new_|..] == cbs[|d.got|..];
    assert Zip(cbs, d0.got) + Zip(cbs[|d0.got|..], new_) == Zip(cbs, d.got);
  }

  /** Without that, what the client ends with depends on the chunking: a reply nobody asked for,
      followed by the first byte of the next one. */
  lemma SurplusBreaksChunking()
    ensures var reply, next := [PLUS, CR, LF], [PLUS];
            && Run([Chunk(reply + next)]).buf == []
            && Run([Chunk(reply), Chunk(next)]).buf == next
  {
    var reply, next := [PLUS, CR, LF], [PLUS];
    LineRoundTrip([], next);
    assert [] + CRLF + next == (reply + next)[1..];
    LineRoundTrip([], []);
    assert [] + CRLF + [] == reply[1..];
    var c := ClientState([], [], [], false);
    assert [Chunk(reply + next)][..0] == [];
    assert [] + (reply + next) == reply + next && [] + reply == reply && [] + next == next;
    assert [Chunk(reply), Chunk(next)][..1] == [Chunk(reply)];
    assert [Chunk(reply)][..0] == [];
    assert Answer(c.(buf := reply + next)) == c;
    assert Answer(c.(buf := reply)) == c;
    assert ParseReply(next).Again?;
  }

  class RedisClient {
    const buffers: Bufferable
    var callbacks: map<int, seq<Callback>>

    constructor ()
      ensures fresh(buffers) && buffers.buf == map[] && callbacks == map[]
    {
      buffers := new Bufferable();
      callbacks := map[];
    }

    /** The state of one descriptor, before any of its callbacks fires. */
    function View(fd: int): ClientState
      reads this, buffers
    {
      ClientState(Lookup(callbacks, fd), [], Saved(buffers.buf, fd), false)
    }

    method AddCallback(fd: int, cb: Callback)
      modifies this
      ensures View(fd) == Step(old(View(fd)), Register(cb))
      ensures callbacks - {fd} == old(callbacks) - {fd}
    {
      if fd !in callbacks {
        callbacks := callbacks[fd := [cb]];
      } else {
        callbacks := callbacks[fd := callbacks[fd] + [cb]];
      }
    }

    method OnClose(client: int)
      modifies this, buffers
      ensures buffers.buf == old(buffers.buf) - {client} && callbacks == old(callbacks) - {client}
    {
      buffers.EraseBuf(client);
      callbacks := callbacks - {client};
    }

    /** The callback that has waited longest is called; none if none waits. */
    method FireNext(client: int, reply: Reply) returns (fired: seq<(Callback, Reply)>)
      modifies this
      ensures var pending := old(Lookup(callbacks, client));
              if pending == [] then fired == [] && callbacks == old(callbacks)
              else fired == [(pending[0], reply)] && Lookup(callbacks, client) == pending[1..]
      ensures callbacks - {client} == old(callbacks) - {client}
    {
      if client !in callbacks || callbacks[client] == [] {
        return [];
      }
      fired := [(callbacks[client][0], reply)];
      callbacks := callbacks[client := callbacks[client][1..]];
    }

    /** Returns the callbacks fired with their replies, and whether the connection is closed. */
    method OnMessage(client: int, message: bytes) returns (fired: seq<(Callback, Reply)>, close: bool)
      modifies this, buffers
      ensures View(client).(fired := fired, closed := close) == Step(old(View(client)), Chunk(message))
      ensures buffers.buf - {client} == old(buffers.buf) - {client}
      ensures callbacks - {client} == old(callbacks) - {client}
    {
      hide ParseReply, Answer, Lookup;
      fired := [];
      var whole := buffers.AppendBuf(client, message);
      var s := new StreamReader(whole);
      var offset := 0;
      ghost var goal := Answer(View(client).(buf := whole));
      assert whole[0..] == whole;
      while true
        invariant s.Valid() && fresh(s) && s.str == whole && s.offset == offset
        invariant Answer(ClientState(Lookup(callbacks, client), fired, s.Rest(), false)) == goal
        invariant buffers.buf == old(buffers.buf) - {client}
        invariant callbacks - {client} == old(callbacks) - {client}
        decreases |whole| - offset
      {
        AnswerStep(ClientState(Lookup(callbacks, client), fired, s.Rest(), false));
        var r := ParseResponse(s);
        match r {
          case AG =>
            var _ := buffers.NeedBuf(client, if offset > 0 then whole[offset..] else whole, true);
            return fired, false;
          case NG =>
            buffers.EraseBuf(client);
            return fired, true;
          case Got(reply) =>
            offset := s.offset;
            var next := FireNext(client, reply);
            if next == [] {
              return fired, false;
            }
            fired := fired + next;
        }
        if s.End() {
          AnswerStep(ClientState(Lookup(callbacks, client), fired, [], false));
          return fired, false;
        }
      }
    }

    /** What happens on one connection, in the order it happens: a command's callback is registered, or a
        chunk comes and the READ callback runs. */
    method Serve(fd: int, es: seq<Event>) returns (fired: seq<(Callback, Reply)>, close: bool)
      requires View(fd) == ClientState([], [], [], false)
      modifies this, buffers
      ensures View(fd).(fired := fired, closed := close) == Run(es)
      ensures buffers.buf - {fd} == old(buffers.buf) - {fd} && callbacks - {fd} == old(callbacks) - {fd}
    {
      hide Answer, Run;
      fired, close := [], false;
      NothingRun(es);
      for i := 0 to |es|
        invariant View(fd).(fired := fired, closed := close) == Run(es[..i])
        invariant buffers.buf - {fd} == old(buffers.buf) - {fd} && callbacks - {fd} == old(callbacks) - {fd}
      {
        NextStep(es, i, View(fd), fired);
        match es[i] {
          case Register(cb) => AddCallback(fd, cb);
          case Chunk(data) =>
            if !close {
              var next;
              next, close := OnMessage(fd, data);
              fired := fired + next;
            }
        }
      }
      assert es[..|es|] == es;
    }
  }

  lemma NothingRun(es: seq<Event>)
    ensures Run(es[..0]) == ClientState([], [], [], false)
  {
  }

  /** What a step does does not depend on the callbacks fired before it. */
  lemma NextStep(es: seq<Event>, i: nat, c: ClientState, fired: seq<(Callback, Reply)>)
    requires i < |es| && c.fired == [] && !c.closed
    ensures Run(es[..i]).(fired := [], closed := false) == c && Run(es[..i]).fired == fired ==>
              var r, d := Run(es[..i]), Step(c, es[i]);
              Run(es[..i + 1]) == if r.closed && es[i].Chunk? then r
                                  else if r.closed then d.(fired := fired, closed := true)
                                  else d.(fired := fired + d.fired)
  {
    hide Answer;
    assert es[..i + 1][..i] == es[..i];
    if es[i].Chunk? {
      AnswerShift(fired, c.(buf := c.buf + es[i].data));
      assert fired + [] == fired;
    }
  }

  lemma {:induction false} AnswerShift(before: seq<(Callback, Reply)>, c: ClientState)
    ensures Answer(c.(fired := before + c.fired)) == Answer(c).(fired := before + Answer(c).fired)
    decreases |c.buf|
  {
    hide ParseReply;
    var q := ParseReply(c.buf);
    if q.Ok? && c.pending != [] {
      assert before + c.fired + [(c.pending[0], q.value)] == before + (c.fired + [(c.pending[0], q.value)]);
      AnswerShift(before, ClientState(c.pending[1..], c.fired + [(c.pending[0], q.value)], q.rest, c.closed));
    }
  }

  lemma AnswerStep(c: ClientState)
    ensures Answer(c) ==
            match ParseReply(c.buf)
            case Again => c
            case Bad => c.(buf := [], closed := true)
            case Ok(r, rest) =>
              if c.pending == [] then c.(buf := [])
              else Answer(ClientState(c.pending[1..], c.fired + [(c.pending[0], r)], rest, c.closed))
    ensures c.buf == [] ==> Answer(c) == c
  {
  }
}
