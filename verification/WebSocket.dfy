/** WebSocket framing in the OPEN state: parsing, masking, fragmentation and sending
    (Protocol/WebSocket.cpp; sections 5.2 to 5.4 of RFC 6455). */
module WebSocketProtocol {
  import opened Bytes
  import opened Reader
  import opened Chunking
  import opened Bufferables

  const OPCODE_TEXT_FRAME: byte := 1
  const OPCODE_BINARY_FRAME: byte := 2
  const OPCODE_CONNECTION_CLOSE: byte := 8
  const OPCODE_PING: byte := 9
  const OPCODE_PONG: byte := 10

  /** Status codes 1000 and 1002, as a little-endian host holds them. */
  const CLOSE_NORMAL: bytes := [0xE8, 0x03]
  const CLOSE_PROTOCOL_ERROR: bytes := [0xEA, 0x03]
  /** "OPCODE_CONNECTION_CLOSE" and "unkown opcode". */
  const CLOSE_ASKED: bytes :=
    [79, 80, 67, 79, 68, 69, 95, 67, 79, 78, 78, 69, 67, 84, 73, 79, 78, 95, 67, 76, 79, 83, 69]
  const UNKNOWN_OPCODE: bytes := [117, 110, 107, 111, 119, 110, 32, 111, 112, 99, 111, 100, 101]

  datatype Frame = Frame(fin: bool, opcode: byte, payload: bytes)

  datatype Message = Message(opcode: byte, payload: bytes)

  // ---- Exclusive or of bytes ----

  function XorBits(a: nat, b: nat, n: nat): (r: nat)
  {
    if n == 0 then 0 else (if a % 2 == b % 2 then 0 else 1) + 2 * XorBits(a / 2, b / 2, n - 1)
  }

  function Pow2(n: nat): (p: nat)
    ensures p > 0
  {
    if n == 0 then 1 else 2 * Pow2(n - 1)
  }

  lemma {:induction false} XorTwice(a: nat, b: nat, n: nat)
    requires a < Pow2(n)
    ensures XorBits(a, b, n) < Pow2(n)
    ensures XorBits(XorBits(a, b, n), b, n) == a
  {
    if n > 0 {
      XorTwice(a / 2, b / 2, n - 1);
      var x := XorBits(a, b, n);
      var h := XorBits(a / 2, b / 2, n - 1);
      assert x / 2 == h && x % 2 == if a % 2 == b % 2 then 0 else 1;
      assert XorBits(x, b, n) == (if x % 2 == b % 2 then 0 else 1) + 2 * XorBits(h, b / 2, n - 1);
    }
  }

  lemma Pow2Of8()
    ensures Pow2(8) == 256
  {
    assert Pow2(4) == 16;
  }

  function Xor(a: byte, b: byte): byte {
    Pow2Of8();
    XorTwice(a, b, 8);
    XorBits(a, b, 8)
  }

  function Masked(payload: bytes, key: bytes): (r: bytes)
    requires |key| == 4
    ensures |r| == |payload|
  {
    seq(|payload|, i requires 0 <= i < |payload| => Xor(payload[i], key[i % 4]))
  }

  /** Masking with the same key again restores the payload. */
  lemma MaskTwice(payload: bytes, key: bytes)
    requires |key| == 4
    ensures Masked(Masked(payload, key), key) == payload
  {
    Pow2Of8();
    forall i | 0 <= i < |payload| ensures Masked(Masked(payload, key), key)[i] == payload[i] {
      XorTwice(payload[i], key[i % 4], 8);
    }
  }

  // ---- Parsing ----

  function ParseLength(short: nat, s: bytes): Parse<nat> {
    if short == 126 then
      var (ext, s1) :- TakeSize(s, 2);
      Ok(FromBigEndian(ext), s1)
    else if short == 127 then
      var (ext, s1) :- TakeSize(s, 8);
      Ok(FromBigEndian(ext), s1)
    else
      Ok(short, s)
  }

  function ParsePayload(masked: bool, length: nat, s: bytes): Parse<bytes> {
    if masked then
      var (key, s1) :- TakeSize(s, 4);
      var (payload, s2) :- TakeSize(s1, length);
      Ok(Masked(payload, key), s2)
    else
      TakeSize(s, length)
  }

  function ParseFrame(s: bytes): (p: Parse<Frame>)
    ensures p.Ok? ==> |p.rest| < |s|
    ensures !p.Bad? && (s == [] ==> p.Again?)
  {
    var (first, s1) :- TakeByte(s);
    var (second, s2) :- TakeByte(s1);
    var (length, s3) :- ParseLength(second % 128, s2);
    var (payload, s4) :- ParsePayload(second / 128 == 1, length, s3);
    Ok(Frame(first / 128 == 1, first % 16, payload), s4)
  }

  /** The frames after the first, up to the one with fin set. */
  function Assemble(opcode: byte, payload: bytes, fin: bool, s: bytes): (p: Parse<Message>)
    ensures p.Ok? ==> |p.rest| <= |s|
    ensures !p.Bad?
    decreases |s|, !fin
  {
    if fin then Ok(Message(opcode, payload), s) else
    var (f, s1) :- ParseFrame(s);
    Assemble(opcode, payload + f.payload, f.fin, s1)
  }

  function ParseMessage(s: bytes): (p: Parse<Message>)
    ensures p.Ok? ==> |p.rest| < |s|
    ensures !p.Bad? && (s == [] ==> p.Again?)
  {
    var (f, s1) :- ParseFrame(s);
    Assemble(f.opcode, f.payload, f.fin, s1)
  }

  /** The messages after which the server closes: a close frame or an unknown opcode. */
  predicate Closes(m: Message) {
    m.opcode !in {OPCODE_TEXT_FRAME, OPCODE_BINARY_FRAME, OPCODE_PING, OPCODE_PONG}
  }

  lemma FrameExtends(s: bytes, t: bytes)
    ensures Extends(ParseFrame(s), t, ParseFrame(s + t))
  {
    TakeByteExtends(s, t);
    if s != [] {
      TakeByteExtends(s[1..], t);
      assert (s + t)[1..] == s[1..] + t;
      if s[1..] != [] {
        var second, s2 := s[1..][0], s[1..][1..];
        LengthExtends(second % 128, s2, t);
        var p := ParseLength(second % 128, s2);
        if p.Ok? {
          PayloadExtends(second / 128 == 1, p.value, p.rest, t);
        }
      }
    }
  }

  lemma LengthExtends(short: nat, s: bytes, t: bytes)
    ensures Extends(ParseLength(short, s), t, ParseLength(short, s + t))
  {
    TakeSizeExtends(s, t, 2);
    TakeSizeExtends(s, t, 8);
  }

  lemma PayloadExtends(masked: bool, length: nat, s: bytes, t: bytes)
    ensures Extends(ParsePayload(masked, length, s), t, ParsePayload(masked, length, s + t))
  {
    if masked {
      TakeSizeExtends(s, t, 4);
      var p := TakeSize(s, 4);
      if p.Ok? {
        TakeSizeExtends(p.rest, t, length);
      }
    } else {
      TakeSizeExtends(s, t, length);
    }
  }

  lemma {:induction false} AssembleExtends(opcode: byte, payload: bytes, fin: bool, s: bytes, t: bytes)
    ensures Extends(Assemble(opcode, payload, fin, s), t, Assemble(opcode, payload, fin, s + t))
    decreases |s|, !fin
  {
    hide ParseFrame;
    if !fin {
      FrameExtends(s, t);
      var p := ParseFrame(s);
      if p.Ok? {
        AssembleExtends(opcode, payload + p.value.payload, p.value.fin, p.rest, t);
      }
    }
  }

  lemma MessageStable()
    ensures Stable(ParseMessage)
  {
    hide ParseFrame;
    forall s, t ensures Extends(ParseMessage(s), t, ParseMessage(s + t)) {
      FrameExtends(s, t);
      var p := ParseFrame(s);
      if p.Ok? {
        AssembleExtends(p.value.opcode, p.value.payload, p.value.fin, p.rest, t);
      }
    }
  }

  // ---- Sending ----

  function LengthBytes(maskBit: byte, n: nat): bytes
    requires maskBit == 0 || maskBit == 128
  {
    if n > 0xffff then [maskBit + 0x7f] + BigEndian(8, n)
    else if n > 0x7d then [maskBit + 0x7e] + BigEndian(2, n)
    else [maskBit + n]
  }

  function FirstByte(fin: bool, opcode: byte): byte {
    ((if fin then 128 else 0) + opcode) % 256
  }

  lemma FirstByteBits(fin: bool, opcode: byte)
    ensures FirstByte(fin, opcode) / 128 == 1 <==> fin != (opcode >= 128)
    ensures FirstByte(fin, opcode) % 16 == opcode % 16
  {
  }

  /** What send writes: `opcode` is any uint8_t. */
  function SendFrame(payload: bytes, opcode: byte, fin: bool): bytes {
    [FirstByte(fin, opcode)] + LengthBytes(0, |payload|) + payload
  }

  /** A frame as any peer may send it: masked with a key, or not. */
  datatype Mask = Unmasked | Key(key: bytes)

  ghost predicate Fits(m: Mask) { m.Key? ==> |m.key| == 4 }

  function WireFrame(f: Frame, m: Mask): bytes
    requires Fits(m) && f.opcode < 16 && |f.payload| < Pow256(8)
  {
    var first := FirstByte(f.fin, f.opcode);
    match m
    case Unmasked => [first] + LengthBytes(0, |f.payload|) + f.payload
    case Key(k) => [first] + LengthBytes(128, |f.payload|) + (k + Masked(f.payload, k))
  }

  lemma LengthRoundTrip(maskBit: byte, n: nat, t: bytes)
    requires maskBit == 0 || maskBit == 128
    requires n < Pow256(8)
    ensures var s := LengthBytes(maskBit, n) + t;
            && s != [] && (s[0] / 128 == 1 <==> maskBit == 128)
            && ParseLength(s[0] % 128, s[1..]) == Ok(n, t)
  {
    hide BigEndian, FromBigEndian;
    var s := LengthBytes(maskBit, n) + t;
    if n > 0xffff {
      BigEndianRoundTrip(8, n);
      assert s[1..] == BigEndian(8, n) + t;
      SplitAppend(BigEndian(8, n), t);
    } else if n > 0x7d {
      assert Pow256(2) == 65536;
      BigEndianRoundTrip(2, n);
      assert s[1..] == BigEndian(2, n) + t;
      SplitAppend(BigEndian(2, n), t);
    } else {
      assert s[1..] == t;
    }
  }

  /** The header and body of a frame, whatever its first byte. */
  lemma FrameParses(first: byte, maskBit: byte, n: nat, body: bytes)
    requires maskBit == 0 || maskBit == 128
    requires n < Pow256(8)
    ensures ParseFrame([first] + LengthBytes(maskBit, n) + body) ==
            match ParsePayload(maskBit == 128, n, body)
            case Ok(p, r) => Ok(Frame(first / 128 == 1, first % 16, p), r)
            case Again => Again
            case Bad => Bad
  {
    hide LengthBytes, ParseLength, ParsePayload;
    LengthRoundTrip(maskBit, n, body);
    var s := [first] + LengthBytes(maskBit, n) + body;
    assert s[1..] == LengthBytes(maskBit, n) + body;
  }

  lemma UnmaskedParses(first: byte, payload: bytes, t: bytes)
    requires |payload| < Pow256(8)
    ensures ParseFrame([first] + LengthBytes(0, |payload|) + payload + t)
         == Ok(Frame(first / 128 == 1, first % 16, payload), t)
  {
    hide LengthBytes, ParseFrame;
    var head := [first] + LengthBytes(0, |payload|);
    assert head + payload + t == head + (payload + t);
    FrameParses(first, 0, |payload|, payload + t);
    SplitAppend(payload, t);
  }

  lemma MaskedParses(first: byte, payload: bytes, key: bytes, t: bytes)
    requires |payload| < Pow256(8) && |key| == 4
    ensures ParseFrame([first] + LengthBytes(128, |payload|) + (key + Masked(payload, key)) + t)
         == Ok(Frame(first / 128 == 1, first % 16, payload), t)
  {
    hide LengthBytes, ParseFrame, Masked;
    var head, body := [first] + LengthBytes(128, |payload|), Masked(payload, key);
    assert head + (key + body) + t == head + (key + (body + t));
    FrameParses(first, 128, |payload|, key + (body + t));
    SplitAppend(key, body + t);
    SplitAppend(body, t);
    MaskTwice(payload, key);
  }

  /** Exactly what a frame sent with any opcode and fin flag parses to. */
  lemma SendParses(payload: bytes, opcode: byte, fin: bool, t: bytes)
    requires |payload| < Pow256(8)
    ensures ParseFrame(SendFrame(payload, opcode, fin) + t)
         == Ok(Frame(fin != (opcode >= 128), opcode % 16, payload), t)
  {
    hide LengthBytes, ParseFrame, FirstByte;
    FirstByteBits(fin, opcode);
    UnmaskedParses(FirstByte(fin, opcode), payload, t);
  }

  /** So a sent frame reads back as it was meant exactly when its opcode has four bits. */
  lemma SendRoundTripIff(payload: bytes, opcode: byte, fin: bool, t: bytes)
    requires |payload| < Pow256(8)
    ensures ParseFrame(SendFrame(payload, opcode, fin) + t) == Ok(Frame(fin, opcode, payload), t) <==> opcode < 16
  {
    hide ParseFrame, SendFrame;
    SendParses(payload, opcode, fin, t);
  }

  lemma WireRoundTrip(f: Frame, m: Mask, t: bytes)
    requires Fits(m) && f.opcode < 16 && |f.payload| < Pow256(8)
    ensures ParseFrame(WireFrame(f, m) + t) == Ok(f, t)
  {
    hide LengthBytes, ParseFrame, Masked, FirstByte;
    var first := FirstByte(f.fin, f.opcode);
    FirstByteBits(f.fin, f.opcode);
    match m
    case Unmasked => UnmaskedParses(first, f.payload, t);
    case Key(k) => MaskedParses(first, f.payload, k, t);
  }

  /** No encoding of a frame is shorter than the one send writes. */
  lemma SendIsShortest(payload: bytes, opcode: byte, fin: bool, s: bytes)
    requires |payload| < Pow256(8) && opcode < 16
    requires ParseFrame(s) == Ok(Frame(fin, opcode, payload), [])
    ensures |SendFrame(payload, opcode, fin)| <= |s|
  {
    var short, s2 := s[1..][0] % 128, s[1..][1..];
    var p := ParseLength(short, s2);
    if short == 126 {
      assert p.value == FromBigEndian(s2[..2]);
      FromBigEndianBound(s2[..2]);
      assert Pow256(2) == 65536;
    }
  }

  lemma {:induction false} FromBigEndianBound(s: bytes)
    ensures FromBigEndian(s) < Pow256(|s|)
  {
    if s != [] {
      FromBigEndianBound(s[..|s| - 1]);
    }
  }

  // ---- Fragmented messages ----

  /** One fragment: its own opcode (ignored after the first), payload and mask. */
  datatype Fragment = Fragment(opcode: byte, payload: bytes, mask: Mask)

  ghost predicate Sendable(fs: seq<Fragment>) {
    forall i :: 0 <= i < |fs| ==> fs[i].opcode < 16 && |fs[i].payload| < Pow256(8) && Fits(fs[i].mask)
  }

  /** fin is set on the last fragment only. */
  function WireFragments(fs: seq<Fragment>): bytes
    requires Sendable(fs)
  {
    if fs == [] then [] else
    WireFrame(Frame(|fs| == 1, fs[0].opcode, fs[0].payload), fs[0].mask) + WireFragments(fs[1..])
  }

  function Payloads(fs: seq<Fragment>): bytes {
    if fs == [] then [] else fs[0].payload + Payloads(fs[1..])
  }

  lemma {:induction false} FragmentsAssemble(fs: seq<Fragment>, opcode: byte, before: bytes, t: bytes)
    requires fs != [] && Sendable(fs)
    ensures Assemble(opcode, before, false, WireFragments(fs) + t) == Ok(Message(opcode, before + Payloads(fs)), t)
  {
    hide ParseFrame, WireFrame;
    var f := Frame(|fs| == 1, fs[0].opcode, fs[0].payload);
    var others := WireFragments(fs[1..]) + t;
    assert WireFragments(fs) + t == WireFrame(f, fs[0].mask) + others;
    WireRoundTrip(f, fs[0].mask, others);
    if |fs| == 1 {
      assert others == t && Payloads(fs) == fs[0].payload;
    } else {
      FragmentsAssemble(fs[1..], opcode, before + fs[0].payload, t);
      assert before + fs[0].payload + Payloads(fs[1..]) == before + Payloads(fs);
    }
  }

  /** However a payload is split into fragments, and however each is masked, one message with
      the first opcode and the whole payload is read, and nothing after it. */
  lemma MessageRoundTrip(fs: seq<Fragment>, t: bytes)
    requires fs != [] && Sendable(fs)
    ensures ParseMessage(WireFragments(fs) + t) == Ok(Message(fs[0].opcode, Payloads(fs)), t)
  {
    hide ParseFrame, WireFrame, ParseMessage, Assemble, WireFragments, Payloads;
    var s := WireFragments(fs) + t;
    var f := Frame(|fs| == 1, fs[0].opcode, fs[0].payload);
    var others := WireFragments(fs[1..]) + t;
    FirstFragment(fs, t);
    WireRoundTrip(f, fs[0].mask, others);
    MessageAssembled(s, f, others);
    FragmentsAssemble(fs, fs[0].opcode, [], t);
    assert [] + Payloads(fs) == Payloads(fs);
  }

  lemma FirstFragment(fs: seq<Fragment>, t: bytes)
    requires fs != [] && Sendable(fs)
    ensures WireFragments(fs) + t == WireFrame(Frame(|fs| == 1, fs[0].opcode, fs[0].payload), fs[0].mask)
                                     + (WireFragments(fs[1..]) + t)
  {
    hide WireFrame;
  }

  /** Reading a message is assembling its frames from nothing. */
  lemma MessageAssembled(s: bytes, f: Frame, rest: bytes)
    requires ParseFrame(s) == Ok(f, rest)
    ensures ParseMessage(s) == Assemble(f.opcode, [], false, s)
  {
    hide ParseFrame;
    assert [] + f.payload == f.payload;
  }

  /** The wire form of a whole conversation. */
  function WireMessages(ms: seq<seq<Fragment>>): bytes
    requires forall i :: 0 <= i < |ms| ==> Sendable(ms[i])
  {
    if ms == [] then [] else WireFragments(ms[0]) + WireMessages(ms[1..])
  }

  function Meant(ms: seq<seq<Fragment>>): seq<Message>
    requires forall i :: 0 <= i < |ms| ==> ms[i] != []
  {
    if ms == [] then [] else [Message(ms[0][0].opcode, Payloads(ms[0]))] + Meant(ms[1..])
  }

  lemma {:induction false} ConversationDrains(ms: seq<seq<Fragment>>, got: seq<Message>, t: bytes)
    requires forall i :: 0 <= i < |ms| ==> ms[i] != [] && Sendable(ms[i])
    requires forall m :: m in Meant(ms) ==> !Closes(m)
    ensures Drain(ParseMessage, Closes, Conn(got, WireMessages(ms) + t, false))
         == Drain(ParseMessage, Closes, Conn(got + Meant(ms), t, false))
  {
    hide ParseMessage, WireFragments;
    if ms == [] {
      assert [] + t == t && got + [] == got;
    } else {
      var others := WireMessages(ms[1..]) + t;
      assert WireMessages(ms) + t == WireFragments(ms[0]) + others;
      MessageRoundTrip(ms[0], others);
      var m := Meant(ms)[0];
      assert m in Meant(ms);
      forall x | x in Meant(ms[1..]) ensures !Closes(x) {
        assert x in Meant(ms);
      }
      ConversationDrains(ms[1..], got + [m], t);
      assert got + [m] + Meant(ms[1..]) == got + Meant(ms);
    }
  }

  /** A conversation of data and ping messages, fragmented and masked in any way, cut by the
      network in any way, and followed by any incomplete frame, is delivered message by message. */
  lemma ConversationDelivered(ms: seq<seq<Fragment>>, t: bytes, chunks: seq<bytes>)
    requires forall i :: 0 <= i < |ms| ==> ms[i] != [] && Sendable(ms[i])
    requires forall m :: m in Meant(ms) ==> !Closes(m)
    requires ParseMessage(t).Again?
    requires Flatten(chunks) == WireMessages(ms) + t
    ensures FeedAll(ParseMessage, Closes, Fresh(), chunks) == Conn(Meant(ms), t, false)
  {
    hide ParseMessage;
    MessageStable();
    ChunksAreOne(ParseMessage, Closes, chunks);
    assert [] + Flatten(chunks) == WireMessages(ms) + t;
    ConversationDrains(ms, [], t);
    assert [] + Meant(ms) == Meant(ms);
  }

  // ---- The handlers as the source runs them ----

  method UnmaskInPlace(payload: array<byte>, key: bytes)
    requires |key| == 4
    modifies payload
    ensures payload[..] == Masked(old(payload[..]), key)
  {
    hide Xor;
    for i := 0 to payload.Length
      invariant forall j :: 0 <= j < i ==> payload[j] == Xor(old(payload[j]), key[j % 4])
      invariant forall j :: i <= j < payload.Length ==> payload[j] == old(payload[j])
    {
      payload[i] := Xor(payload[i], key[i % 4]);
    }
  }

  method ReadLength(s: StreamReader, short: nat) returns (r: Outcome<nat>)
    requires s.Valid()
    modifies s
    ensures s.Valid() && Agrees(r, ParseLength(short, old(s.Rest())), s.Rest())
  {
    if short == 0x7E {
      r := s.ReadNumber(2);
    } else if short == 0x7F {
      r := s.ReadNumber(8);
    } else {
      r := Got(short);
    }
  }

  method ReadPayload(s: StreamReader, masked: bool, length: nat) returns (r: Outcome<bytes>)
    requires s.Valid()
    modifies s
    ensures s.Valid() && Agrees(r, ParsePayload(masked, length, old(s.Rest())), s.Rest())
  {
    var key := [];
    if masked {
      key :- s.ReadSize(4);
    }
    var raw :- s.ReadSize(length);
    if masked {
      var payload := new byte[|raw|](i requires 0 <= i < |raw| => raw[i]);
      assert payload[..] == raw;
      UnmaskInPlace(payload, key);
      r := Got(payload[..]);
    } else {
      r := Got(raw);
    }
  }

  method ReadFrame(s: StreamReader) returns (r: Outcome<Frame>)
    requires s.Valid()
    modifies s
    ensures s.Valid() && Agrees(r, ParseFrame(old(s.Rest())), s.Rest())
  {
    hide ParseLength, ParsePayload;
    var first :- s.ReadPlain();
    var second :- s.ReadPlain();
    var length :- ReadLength(s, second % 128);
    var payload :- ReadPayload(s, second / 128 == 1, length);
    r := Got(Frame(first / 128 == 1, first % 16, payload));
  }

  /** The do-while loop over frames until fin. */
  method ReadMessage(s: StreamReader) returns (r: Outcome<Message>)
    requires s.Valid()
    modifies s
    ensures s.Valid() && Agrees(r, ParseMessage(old(s.Rest())), s.Rest())
  {
    hide ParseFrame;
    var f :- ReadFrame(s);
    var m := Message(f.opcode, f.payload);
    ghost var goal := Assemble(f.opcode, f.payload, f.fin, s.Rest());
    while !f.fin
      invariant s.Valid() && Assemble(m.opcode, m.payload, f.fin, s.Rest()) == goal
      decreases |s.Rest()|
    {
      f :- ReadFrame(s);
      m := m.(payload := m.payload + f.payload);
    }
    r := Got(m);
  }

  // ---- What the server writes back ----

  /** A ping is answered with a pong; a close frame, or an opcode it does not know, with a close frame. */
  function Answer(m: Message): bytes {
    if m.opcode == OPCODE_PING then SendFrame(m.payload, OPCODE_PONG, true)
    else if m.opcode == OPCODE_CONNECTION_CLOSE then
      var code := if |m.payload| >= 2 then m.payload[..2] else CLOSE_NORMAL;
      SendFrame(code + CLOSE_ASKED, OPCODE_CONNECTION_CLOSE, true)
    else if Closes(m) then SendFrame(CLOSE_PROTOCOL_ERROR + UNKNOWN_OPCODE, OPCODE_CONNECTION_CLOSE, true)
    else []
  }

  predicate Answered(m: Message) { Answer(m) != [] }

  function Answers(ms: seq<Message>): bytes {
    if ms == [] then [] else Answers(ms[..|ms| - 1]) + Answer(ms[|ms| - 1])
  }

  /** Control frames (section 5.5 of RFC 6455), as the peer reads the answers: a pong carries the ping's payload, and a
      close frame gives back the status code of the one it answers. Data and pongs are not answered. */
  lemma AnswersRead(m: Message, t: bytes)
    requires |m.payload| < Pow256(8)
    ensures match m.opcode
            case 9 => ParseFrame(Answer(m) + t) == Ok(Frame(true, OPCODE_PONG, m.payload), t)
            case 8 =>
              var p := ParseFrame(Answer(m) + t);
              && p.Ok? && p.rest == t && p.value.fin && p.value.opcode == OPCODE_CONNECTION_CLOSE
              && (|m.payload| >= 2 ==> m.payload[..2] <= p.value.payload)
              && (|m.payload| < 2 ==> CLOSE_NORMAL <= p.value.payload)
            case op =>
              if Closes(m) then
                var p := ParseFrame(Answer(m) + t);
                && p.Ok? && p.rest == t && p.value.fin && p.value.opcode == OPCODE_CONNECTION_CLOSE
                && CLOSE_PROTOCOL_ERROR <= p.value.payload
              else Answer(m) == []
  {
    hide ParseFrame, SendFrame;
    assert Pow256(8) > 100 by { LargePow(); }
    if m.opcode == OPCODE_PING {
      SendParses(m.payload, OPCODE_PONG, true, t);
    } else if m.opcode == OPCODE_CONNECTION_CLOSE {
      var code := if |m.payload| >= 2 then m.payload[..2] else CLOSE_NORMAL;
      SendParses(code + CLOSE_ASKED, OPCODE_CONNECTION_CLOSE, true, t);
    } else if Closes(m) {
      SendParses(CLOSE_PROTOCOL_ERROR + UNKNOWN_OPCODE, OPCODE_CONNECTION_CLOSE, true, t);
    }
  }

  lemma LargePow()
    ensures Pow256(8) > 100
  {
    assert Pow256(1) == 256;
    assert Pow256(7) > 0;
  }

  lemma NoAnswers()
    ensures Answers([]) == []
  {
  }

  lemma AnswerNext(ms: seq<Message>, m: Message)
    ensures Answers(ms + [m]) == Answers(ms) + Answer(m)
  {
    assert (ms + [m])[..|ms|] == ms;
  }

  lemma {:induction false} AnswersTwice(ms: seq<Message>, more: seq<Message>)
    ensures Answers(ms + more) == Answers(ms) + Answers(more)
    decreases |more|
  {
    hide Answers, Answer;
    if more == [] {
      NoAnswers();
      assert ms + more == ms && Answers(ms) + [] == Answers(ms);
    } else {
      var front, m := more[..|more| - 1], more[|more| - 1];
      AnswersTwice(ms, front);
      AnswerNext(ms + front, m);
      AnswerNext(front, m);
      assert ms + front + [m] == ms + more && front + [m] == more;
      assert Answers(ms) + Answers(front) + Answer(m) == Answers(ms) + (Answers(front) + Answer(m));
    }
  }

  class WebSocket {
    const buffers: Bufferable

    constructor ()
      ensures fresh(buffers) && buffers.buf == map[]
    {
      buffers := new Bufferable();
    }

    /** on_message in the OPEN state: the messages ON_MESSAGE fired for, the bytes written back,
        and whether the connection is closed. `at`: which message's answer meets a broken pipe. */
    method OnMessage(client: int, message: bytes, at: nat) returns (fired: seq<Message>, out: bytes, close: bool)
      modifies buffers
      ensures Conn(fired, Saved(buffers.buf, client), close)
           == Turn(ParseMessage, Closes, Answered, Conn([], old(Saved(buffers.buf, client)), false), message, at)
      ensures out == Answers(fired)
      ensures buffers.buf - {client} == old(buffers.buf) - {client}
    {
      hide ParseMessage, Drain, Turn, Breaks, Closes, Answers, Answer;
      TurnDrains(ParseMessage, Closes, Answered, Saved(buffers.buf, client), message, at);
      NoAnswers();
      fired, out := [], [];
      var broken := false;
      NothingBreaks(Answered, at);
      var whole := buffers.AppendBuf(client, message);
      var s := new StreamReader(whole);
      var offset := 0;
      ghost var goal := Drain(ParseMessage, Closes, Conn([], whole, false));
      assert whole[0..] == whole;
      while true
        invariant s.Valid() && fresh(s) && s.str == whole && s.offset == offset
        invariant Drain(ParseMessage, Closes, Conn(fired, s.Rest(), false)) == goal
        invariant out == Answers(fired)
        invariant broken == Breaks(Answered, fired, at)
        invariant client !in buffers.buf && buffers.buf - {client} == old(buffers.buf) - {client}
        decreases |whole| - offset
      {
        DrainStep(ParseMessage, Closes, Conn(fired, s.Rest(), false));
        var r := ReadMessage(s);
        match r {
          case AG =>
            var _ := buffers.NeedBuf(client, if offset > 0 then whole[offset..] else whole, true);
            return fired, out, broken;
          case NG =>
            assert false; // no frame is malformed
          case Got(m) =>
            offset := s.offset;
            AnswerNext(fired, m);
            BreaksNext(Answered, fired, m, at);
            fired := fired + [m];
            var answer, last := AnswerTo(m);
            out := out + answer;
            var breaks := |fired| - 1 == at && |answer| > 0;
            Written(client, breaks);
            broken := broken || breaks;
            if last {
              buffers.EraseBuf(client);
              return fired, out, true;
            }
        }
        if s.End() {
          DrainStep(ParseMessage, Closes, Conn(fired, [], false));
          return fired, out, broken;
        }
      }
    }

    /** After the write of an answer: a broken pipe has closed the client, whose CLOSE callback erases what is saved. */
    method Written(client: int, breaks: bool)
      modifies buffers
      ensures buffers.buf == if breaks then old(buffers.buf) - {client} else old(buffers.buf)
      ensures buffers.buf - {client} == old(buffers.buf) - {client}
    {
      if breaks {
        buffers.EraseBuf(client);
      }
    }

    /** The READ callbacks of one connection, one for each chunk that comes; none after it is closed. What an
        earlier connection under the number left saved comes first. */
    method Serve(client: int, chunks: seq<bytes>, ats: seq<nat>) returns (fired: seq<Message>, out: bytes, close: bool)
      requires |ats| == |chunks|
      modifies buffers
      ensures Conn(fired, Saved(buffers.buf, client), close)
           == Turns(ParseMessage, Closes, Answered, Conn([], old(Saved(buffers.buf, client)), false), chunks, ats)
      ensures out == Answers(fired)
      ensures buffers.buf - {client} == old(buffers.buf) - {client}
    {
      hide ParseMessage, Closes, Answers, Turn, Turns;
      fired, out, close := [], [], false;
      NoAnswers();
      ghost var first := Conn([], Saved(buffers.buf, client), false);
      NoTurn(ParseMessage, Closes, Answered, first, chunks, ats);
      for i := 0 to |chunks|
        invariant Conn(fired, Saved(buffers.buf, client), close)
               == Turns(ParseMessage, Closes, Answered, first, chunks[..i], ats[..i])
        invariant out == Answers(fired)
        invariant buffers.buf - {client} == old(buffers.buf) - {client}
      {
        NextTurn(ParseMessage, Closes, Answered, first, chunks, ats, i);
        if !close {
          var next, answers;
          next, answers, close := OnMessage(client, chunks[i], ats[i]);
          AnswersTwice(fired, next);
          fired, out := fired + next, out + answers;
        }
      }
      assert chunks[..|chunks|] == chunks && ats[..|ats|] == ats;
    }

    /** The switch over the opcode: what is sent, and whether the connection is then closed. */
    method AnswerTo(m: Message) returns (out: bytes, last: bool)
      ensures out == Answer(m) && last == Closes(m)
    {
      hide SendFrame;
      match m.opcode {
        case 1 => return [], false;
        case 2 => return [], false;
        case 8 =>
          out := CloseFrame(if |m.payload| >= 2 then m.payload[..2] else CLOSE_NORMAL, CLOSE_ASKED);
          return out, true;
        case 9 =>
          out := Send(m.payload, OPCODE_PONG);
          return out, false;
        case 10 => return [], false;
        case _ =>
          out := CloseFrame(CLOSE_PROTOCOL_ERROR, UNKNOWN_OPCODE);
          return out, true;
      }
    }

    method CloseFrame(code: bytes, reason: bytes) returns (out: bytes)
      ensures out == SendFrame(code + reason, OPCODE_CONNECTION_CLOSE, true)
    {
      out := Send(code + reason, OPCODE_CONNECTION_CLOSE);
    }

    method Send(payload: bytes, opcode: byte := OPCODE_TEXT_FRAME, fin: bool := true) returns (out: bytes)
      ensures out == SendFrame(payload, opcode, fin)
    {
      out := [FirstByte(fin, opcode)];
      var n := |payload|;
      if n > 0xffff {
        out := out + [0x7f];
        out := out + BigEndian(8, n);
      } else if n > 0x7d {
        out := out + [0x7e];
        out := out + BigEndian(2, n);
      } else {
        out := out + [n];
      }
      out := out + payload;
    }
  }
}
