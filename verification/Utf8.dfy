/** UTF-8 characters: their lengths, decoding and encoding (Codec/Utf8.cpp). */
module Utf8Codec {
  import opened Bytes

  datatype Option<+T> = None | Some(value: T)

  /** The length the first byte announces; 0 when no character begins with it. */
  function LeadLength(b: byte): nat {
    if b < 128 then 1
    else if b / 32 % 4 == 2 then 2
    else if b / 16 % 8 == 6 then 3
    else if b / 8 % 16 == 14 then 4
    else 0
  }

  /** decode_char_length of the bytes from an offset on. */
  function CharLength(s: bytes): (n: nat)
    ensures n <= |s| && n <= 4
  {
    if s == [] || |s| < LeadLength(s[0]) then 0 else LeadLength(s[0])
  }

  /** The bits below `m`, a power of two. */
  function Low(b: byte, m: nat): nat
    requires m > 0
  {
    b % m
  }

  function CodePoint(s: bytes): nat
    requires CharLength(s) > 0
  {
    match CharLength(s)
    case 1 => s[0]
    case 2 => Low(s[0], 32) * 64 + Low(s[1], 64)
    case 3 => Low(s[0], 16) * 4096 + Low(s[1], 64) * 64 + Low(s[2], 64)
    case _ => Low(s[0], 8) * 262144 + Low(s[1], 64) * 4096 + Low(s[2], 64) * 64 + Low(s[3], 64)
  }

  /** encode, for any uint32_t. */
  function Encode(u: nat): bytes
    requires u < 0x1_0000_0000
  {
    if u <= 0x7F then [u]
    else if u <= 0x7FF then [192 + u / 64 % 32, 128 + u % 64]
    else if u <= 0xFFFF then [224 + u / 4096 % 16, 128 + u / 64 % 64, 128 + u % 64]
    else [240 + u / 262144 % 8, 128 + u / 4096 % 64, 128 + u / 64 % 64, 128 + u % 64]
  }

  /** More bytes do not change the first character. */
  lemma CharLengthAppend(s: bytes, t: bytes)
    requires CharLength(s) > 0
    ensures CharLength(s + t) == CharLength(s)
    ensures CodePoint(s + t) == CodePoint(s)
    ensures (s + t)[..CharLength(s)] == s[..CharLength(s)]
    ensures (s + t)[CharLength(s)..] == s[CharLength(s)..] + t
  {
  }

  lemma LeadRanges(b: byte)
    ensures LeadLength(b) == if b < 128 then 1 else if 192 <= b < 224 then 2 else if 224 <= b < 240 then 3
                             else if 240 <= b < 248 then 4 else 0
  {
    if b >= 128 {
      DivUnique(b / 32, 4, if b < 128 then 0 else 1, b / 32 - 4);
      DivUnique(b / 16, 8, 1, b / 16 - 8);
      DivUnique(b / 8, 16, 1, b / 8 - 16);
    }
  }

  lemma EncodeParts(u: nat)
    requires u < 0x20_0000
    ensures u == u / 64 * 64 + u % 64
    ensures u / 64 == u / 4096 * 64 + u / 64 % 64
    ensures u / 4096 == u / 262144 * 64 + u / 4096 % 64
    ensures u / 262144 < 8
  {
    DivUnique(u, 4096, u / 64 / 64, u / 64 % 64 * 64 + u % 64);
    DivUnique(u, 262144, u / 64 / 64 / 64, u / 64 / 64 % 64 * 4096 + u / 64 % 64 * 64 + u % 64);
  }

  /** The encoding of a code point of at most 21 bits is one character, and decodes to it. */
  lemma EncodeRoundTrip(u: nat, t: bytes)
    requires u < 0x20_0000
    ensures var e := Encode(u);
            && CharLength(e + t) == |e| && CodePoint(e + t) == u
            && (e + t)[..|e|] == e && (e + t)[|e|..] == t
  {
    var e := Encode(u);
    LeadRanges(e[0]);
    EncodeParts(u);
    Encode21(u);
    CharLengthAppend(e, t);
  }

  lemma Encode21(u: nat)
    requires u < 0x20_0000
    ensures var e := Encode(u);
            CharLength(e) == |e| && CodePoint(e) == u
  {
    var e := Encode(u);
    LeadRanges(e[0]);
    EncodeParts(u);
    hide LeadLength;
    if u <= 0x7F {
    } else if u <= 0x7FF {
      DivUnique(u / 64, 32, 0, u / 64);
      DivUnique(e[0], 32, 6, u / 64);
      DivUnique(e[1], 64, 2, u % 64);
    } else if u <= 0xFFFF {
      DivUnique(u / 4096, 16, 0, u / 4096);
      DivUnique(e[0], 16, 14, u / 4096);
      DivUnique(e[1], 64, 2, u / 64 % 64);
      DivUnique(e[2], 64, 2, u % 64);
    } else {
      DivUnique(u / 262144, 8, 0, u / 262144);
      DivUnique(e[0], 8, 30, u / 262144);
      DivUnique(e[1], 64, 2, u / 4096 % 64);
      DivUnique(e[2], 64, 2, u / 64 % 64);
      DivUnique(e[3], 64, 2, u % 64);
    }
  }

  /** Larger numbers lose their upper bits, so the round trip holds exactly up to 21 bits. */
  lemma EncodeRoundTripIff(u: nat)
    requires u < 0x1_0000_0000
    ensures CharLength(Encode(u)) == |Encode(u)|
    ensures CodePoint(Encode(u)) == u <==> u < 0x20_0000
  {
    if u < 0x20_0000 {
      Encode21(u);
    } else {
      LeadRanges(Encode(u)[0]);
      CodePointBound(Encode(u));
    }
  }

  lemma CodePointBound(s: bytes)
    requires CharLength(s) > 0
    ensures CodePoint(s) < 0x20_0000
  {
  }

  // ---- Segmentation ----

  /** The characters of `s` up to the first byte that begins none. */
  function Split(s: bytes): (cs: seq<bytes>)
    decreases |s|
  {
    var n := CharLength(s);
    if n == 0 then [] else [s[..n]] + Split(s[n..])
  }

  function Join(cs: seq<bytes>): bytes {
    if cs == [] then [] else cs[0] + Join(cs[1..])
  }

  predicate Decodable(s: bytes) { Join(Split(s)) == s }

  function EncodeAll(us: seq<nat>): bytes
    requires forall i :: 0 <= i < |us| ==> us[i] < 0x20_0000
  {
    if us == [] then [] else Encode(us[0]) + EncodeAll(us[1..])
  }

  /** Repeated decoding of concatenated encodings returns exactly the characters and their code
      points, and their number is the length. */
  lemma {:induction false} SegmentationRoundTrip(us: seq<nat>)
    requires forall i :: 0 <= i < |us| ==> us[i] < 0x20_0000
    ensures var cs := Split(EncodeAll(us));
            && |cs| == |us|
            && (forall i :: 0 <= i < |us| ==>
               cs[i] == Encode(us[i]) && CharLength(cs[i]) > 0 && CodePoint(cs[i]) == us[i])
            && Join(cs) == EncodeAll(us)
  {
    hide Encode, CodePoint, CharLength;
    if us == [] {
      NoChar();
    } else {
      var e, t := Encode(us[0]), EncodeAll(us[1..]);
      EncodeRoundTrip(us[0], t);
      Encode21(us[0]);
      EncodeNotEmpty(us[0]);
      SegmentationRoundTrip(us[1..]);
      var cs := Split(EncodeAll(us));
      assert cs == [e] + Split(t);
      assert cs[1..] == Split(t);
    }
  }

  lemma NoChar()
    ensures CharLength([]) == 0 && Split([]) == []
  {
  }

  lemma EncodeNotEmpty(u: nat)
    requires u < 0x20_0000
    ensures Encode(u) != []
  {
  }

  // ---- The methods ----

  method DecodeCharLength(s: bytes, offset: nat) returns (length: nat, codepoint: nat)
    ensures offset <= |s| ==> length == CharLength(s[offset..])
    ensures offset > |s| ==> length == 0
    ensures length > 0 ==> codepoint == CodePoint(s[offset..])
  {
    codepoint := 0;
    if |s| <= offset {
      return 0, 0;
    }
    var first := s[offset];
    if first < 128 {
      return 1, first;
    }
    if first / 32 % 4 == 2 {
      length := 2;
    } else if first / 16 % 8 == 6 {
      length := 3;
    } else if first / 8 % 16 == 14 {
      length := 4;
    } else {
      return 0, 0;
    }
    if |s| < offset + length {
      return 0, 0;
    }
    if length == 2 {
      codepoint := Low(s[offset], 32) * 64 + Low(s[offset + 1], 64);
    } else if length == 3 {
      codepoint := Low(s[offset], 16) * 4096 + Low(s[offset + 1], 64) * 64 + Low(s[offset + 2], 64);
    } else {
      codepoint := Low(s[offset], 8) * 262144 + Low(s[offset + 1], 64) * 4096 + Low(s[offset + 2], 64) * 64
          + Low(s[offset + 3], 64);
    }
  }

  /** The next character and the offset after it. */
  method DecodeCharAt(s: bytes, offset: nat) returns (ok: bool, ch: bytes, next: nat)
    requires offset <= |s|
    ensures ok <==> CharLength(s[offset..]) > 0
    ensures ok ==> next == offset + CharLength(s[offset..]) && ch == s[offset..next]
    ensures !ok ==> next == offset
  {
    hide CharLength, CodePoint;
    var length, _ := DecodeCharLength(s, offset);
    if length == 0 {
      return false, [], offset;
    }
    return true, s[offset..offset + length], offset + length;
  }

  method Length(s: bytes) returns (n: nat)
    ensures n == |Split(s)|
  {
    hide CharLength, CodePoint;
    if |s| < 1 {
      NoChar();
      return 0;
    }
    var offset := 0;
    n := 0;
    assert s[0..] == s;
    while offset < |s|
      invariant offset <= |s| && n + |Split(s[offset..])| == |Split(s)|
      decreases |s| - offset
    {
      var charLength, _ := DecodeCharLength(s, offset);
      if charLength == 0 {
        return n;
      }
      assert s[offset..][charLength..] == s[offset + charLength..];
      offset := offset + charLength;
      n := n + 1;
    }
    NoChar();
  }
}
