/** Base64 through a 32-bit accumulator that wraps around (Codec/Base64.cpp, http_proxy/utils.cpp). */
module Base64Codec {
  import opened Bytes

  const WORD: nat := 0x1_0000_0000
  const SIZE_T_MODULUS: nat := 0x1_0000_0000_0000_0000
  const PAD: byte := 61

  type sextet = v: int | 0 <= v < 64

  /** b64_table */
  function Char64(v: sextet): byte {
    if v < 26 then 65 + v else if v < 52 then 71 + v else if v < 62 then v - 4 else if v == 62 then 43 else 47
  }

  /** reverse_table, with 64 for what is not in the alphabet and for bytes past its end. */
  function Value64(c: byte): nat {
    if 65 <= c <= 90 then c - 65 else if 97 <= c <= 122 then c - 71 else if 48 <= c <= 57 then c + 4
    else if c == 43 then 62 else if c == 47 then 63 else 64
  }

  predicate Legal(c: byte) { Value64(c) < 64 }

  /** White space and padding are ignored anywhere. */
  predicate Skipped(c: byte) { IsSpace(c) || c == PAD }

  function Chars(vs: seq<sextet>): (r: bytes)
    ensures |r| == |vs| && forall i :: 0 <= i < |vs| ==> r[i] == Char64(vs[i])
  {
    seq(|vs|, i requires 0 <= i < |vs| => Char64(vs[i]))
  }

  /** The encoding of section 4 of RFC 4648, group of three by group of three. */
  function Reference(s: bytes): bytes {
    if s == [] then []
    else if |s| == 1 then Chars([s[0] / 4, s[0] % 4 * 16]) + [PAD, PAD]
    else if |s| == 2 then Chars([s[0] / 4, s[0] % 4 * 16 + s[1] / 16, s[1] % 16 * 4]) + [PAD]
    else Chars([s[0] / 4, s[0] % 4 * 16 + s[1] / 16, s[1] % 16 * 4 + s[2] / 64, s[2] % 64]) + Reference(s[3..])
  }

  // ---- What the encoding loop has completed after each byte ----

  /** The position in a group of three; bits are pending in phases 1 and 2. */
  function Phase(n: nat): (p: nat)
    ensures p < 3
  {
    n % 3
  }

  lemma PhaseNext(n: nat)
    ensures Phase(n + 1) == if Phase(n) == 2 then 0 else Phase(n) + 1
  {
    if n % 3 == 2 {
      DivUnique(n + 1, 3, n / 3 + 1, 0);
    } else {
      DivUnique(n + 1, 3, n / 3, n % 3 + 1);
    }
  }

  /** The bits of the last byte of `s` not yet in a sextet. */
  function Pending(s: bytes): (p: nat)
    ensures Phase(|s|) == 0 ==> p == 0
    ensures Phase(|s|) == 1 ==> p < 4
    ensures Phase(|s|) == 2 ==> p < 16
  {
    if Phase(|s|) == 0 then 0
    else if Phase(|s|) == 1 then s[|s| - 1] % 4
    else s[|s| - 1] % 16
  }

  /** The sextets that byte `b` completes, in each phase. */
  function Draws(phase: nat, pending: nat, b: byte): seq<sextet>
    requires (phase == 0 && pending == 0) || (phase == 1 && pending < 4) || (phase == 2 && pending < 16)
  {
    if phase == 0 then [b / 4]
    else if phase == 1 then [pending * 16 + b / 16]
    else [pending * 4 + b / 64, b % 64]
  }

  function Completed(s: bytes): seq<sextet> {
    if s == [] then []
    else
      var front, b := s[..|s| - 1], s[|s| - 1];
      Completed(front) + Draws(Phase(|front|), Pending(front), b)
  }

  /** The last sextet, filled with zero bits. */
  function Trailing(s: bytes): seq<sextet> {
    if Phase(|s|) == 0 then [] else if Phase(|s|) == 1 then [Pending(s) * 16] else [Pending(s) * 4]
  }

  function Padding(n: nat): (r: bytes)
    ensures forall i :: 0 <= i < |r| ==> r[i] == PAD
  {
    if Phase(n) == 0 then [] else if Phase(n) == 1 then [PAD, PAD] else [PAD]
  }

  function EncodeText(s: bytes): bytes { Chars(Completed(s) + Trailing(s)) + Padding(|s|) }

  // ---- The accumulator ----

  function Pow2(n: nat): (p: nat)
    ensures p > 0
  {
    if n == 0 then 1 else 2 * Pow2(n - 1)
  }

  lemma Pow2s()
    ensures Pow2(0) == 1 && Pow2(2) == 4 && Pow2(4) == 16 && Pow2(6) == 64 && Pow2(8) == 256
  {
    assert Pow2(3) == 8;
  }

  /** `width` shifted in from the right, losing what leaves the 32 bits. */
  function Push(acc: nat, width: nat, v: nat): nat { (acc * Pow2(width) + v) % WORD }

  function Low(acc: nat, k: nat): nat { acc % Pow2(k) }

  function Field(acc: nat, k: nat, width: nat): (f: nat)
    ensures f < Pow2(width)
  {
    acc / Pow2(k) % Pow2(width)
  }

  /** A field and the bits below it, read off a number written in parts. */
  lemma Read(a: nat, y: int, k: nat, w: nat, f: nat, l: nat)
    requires k % 2 == 0 && k <= 6 && (w == 6 || w == 8)
    requires f < Pow2(w) && l < Pow2(k)
    requires a == Pow2(k) * (Pow2(w) * y + f) + l
    ensures Field(a, k, w) == f && Low(a, k) == l
  {
    DivUnique(a, Pow2(k), Pow2(w) * y + f, l);
    DivUnique(Pow2(w) * y + f, Pow2(w), y, f);
  }

  /** Shifting a byte in: what each phase reads does not depend on what was lost. */
  lemma ShiftIn(acc: nat, b: byte)
    ensures var a := Push(acc, 8, b);
            && Field(a, 2, 6) == b / 4 && Low(a, 2) == b % 4
            && Field(a, 4, 6) == Low(acc, 2) * 16 + b / 16 && Low(a, 4) == b % 16
            && Field(a, 6, 6) == Low(acc, 4) * 4 + b / 64 && Field(a, 0, 6) == b % 64 && Low(a, 0) == 0
  {
    hide Field;
    Pow2s();
    var a := Push(acc, 8, b);
    var q := (acc * 256 + b) / WORD;
    assert a == acc * 256 + b - q * WORD;
    Read(a, acc - q * 0x100_0000, 2, 6, b / 4, b % 4);
    Read(a, acc / 4 - q * 0x40_0000, 4, 6, acc % 4 * 16 + b / 16, b % 16);
    Read(a, acc / 16 - q * 0x10_0000, 6, 6, acc % 16 * 4 + b / 64, b % 64);
    Read(a, 4 * (acc - q * 0x100_0000) + b / 64, 0, 6, b % 64, 0);
  }

  /** Shifting a sextet in. */
  lemma ShiftInSextet(acc: nat, v: sextet)
    ensures var a := Push(acc, 6, v);
            && Low(a, 6) == v
            && Field(a, 4, 8) == Low(acc, 6) * 4 + v / 16 && Low(a, 4) == v % 16
            && Field(a, 2, 8) == Low(acc, 4) * 16 + v / 4 && Low(a, 2) == v % 4
            && Field(a, 0, 8) == Low(acc, 2) * 64 + v && Low(a, 0) == 0
  {
    hide Field;
    Pow2s();
    var a := Push(acc, 6, v);
    var q := (acc * 64 + v) / WORD;
    assert a == acc * 64 + v - q * WORD;
    DivUnique(a, 64, acc - q * 0x400_0000, v);
    Read(a, acc / 64 - q * 0x10_0000, 4, 8, acc % 64 * 4 + v / 16, v % 16);
    Read(a, acc / 16 - q * 0x40_0000, 2, 8, acc % 16 * 16 + v / 4, v % 4);
    Read(a, acc / 4 - q * 0x100_0000, 0, 8, acc % 4 * 64 + v, 0);
  }

  /** Shifting zero bits in at the end. */
  lemma ShiftZeros(acc: nat)
    ensures Low(Push(acc, 4, 0), 6) == Low(acc, 2) * 16
    ensures Low(Push(acc, 2, 0), 6) == Low(acc, 4) * 4
  {
    Pow2s();
    var q, r := acc * 16 / WORD, acc * 4 / WORD;
    DivUnique(Push(acc, 4, 0), 64, acc / 4 - q * 0x400_0000, acc % 4 * 16);
    DivUnique(Push(acc, 2, 0), 64, acc / 16 - r * 0x400_0000, acc % 16 * 4);
  }

  // ---- Encoding ----

  /** The sextets the inner loop takes off the top of `bits` collected bits. */
  function Drawn(acc: nat, bits: nat): seq<sextet> {
    Pow2s();
    if bits < 6 then [] else [Field(acc, bits - 6, 6)] + Drawn(acc, bits - 6)
  }

  lemma DrawnByByte(s: bytes, b: byte, acc: nat)
    requires Low(acc, 2 * Phase(|s|)) == Pending(s)
    ensures var a := Push(acc, 8, b);
            && Completed(s + [b]) == Completed(s) + Drawn(a, 2 * Phase(|s|) + 8)
            && Low(a, 2 * Phase(|s + [b]|)) == Pending(s + [b])
  {
    hide Push, Field, Low, Pow2, Phase, Drawn, Completed;
    var a := Push(acc, 8, b);
    ShiftIn(acc, b);
    DrawnIs(a);
    PhaseNext(|s|);
    CompletedNext(s, b);
    assert Drawn(a, 2 * Phase(|s|) + 8) == Draws(Phase(|s|), Pending(s), b) by {
      if Phase(|s|) == 0 {
        assert Drawn(a, 8) == [b / 4];
      } else if Phase(|s|) == 1 {
        assert Drawn(a, 10) == [Pending(s) * 16 + b / 16];
      } else {
        assert Drawn(a, 12) == [Pending(s) * 4 + b / 64, b % 64];
      }
    }
  }

  lemma CompletedNext(s: bytes, b: byte)
    ensures Completed(s + [b]) == Completed(s) + Draws(Phase(|s|), Pending(s), b)
  {
    hide Draws, Phase, Pending;
    assert (s + [b])[..|s|] == s;
  }

  lemma DrawnIs(a: nat)
    ensures Field(a, 0, 6) < 64 && Field(a, 2, 6) < 64 && Field(a, 4, 6) < 64 && Field(a, 6, 6) < 64
    ensures Drawn(a, 8) == [Field(a, 2, 6)] && Drawn(a, 10) == [Field(a, 4, 6)]
    ensures Drawn(a, 12) == [Field(a, 6, 6), Field(a, 0, 6)]
  {
    hide Field;
    Pow2s();
    assert Drawn(a, 6) == [Field(a, 0, 6)];
  }

  lemma CharsAppend(xs: seq<sextet>, ys: seq<sextet>)
    ensures Chars(xs + ys) == Chars(xs) + Chars(ys)
  {
  }

  /** Each byte completes one sextet, and every third one more. */
  lemma {:induction false} CompletedLength(s: bytes)
    ensures 3 * |Completed(s)| + Phase(|s|) == 4 * |s|
  {
    if s != [] {
      CompletedLength(s[..|s| - 1]);
      hide Phase;
      PhaseNext(|s| - 1);
    } else {
      assert Phase(0) == 0;
    }
  }

  function OutputSize(n: nat): nat { (n + 2) / 3 * 4 }

  /** How far the loops get in the output. */
  lemma Written(s: bytes)
    ensures |Completed(s)| + |Trailing(s)| + |Padding(|s|)| == OutputSize(|s|)
  {
    CompletedLength(s);
    var q := |s| / 3;
    DivUnique(|s| + 2, 3, if |s| % 3 == 0 then q else q + 1, if |s| % 3 == 0 then 2 else |s| % 3 - 1);
  }

  lemma CompletedGrows(s: bytes, i: nat)
    requires i <= |s|
    ensures |Completed(s[..i])| <= |Completed(s)|
    decreases |s| - i
  {
    if i < |s| {
      CompletedGrows(s, i + 1);
      assert s[..i + 1][..i] == s[..i];
    } else {
      assert s[..i] == s;
    }
  }

  /** The inner while loop. */
  method Draw(retval: array<byte>, start: nat, accumulator: nat, collected: nat) returns (outpos: nat, bits: nat)
    requires start + |Drawn(accumulator, collected)| <= retval.Length
    modifies retval
    ensures bits == collected % 6 && outpos == start + |Drawn(accumulator, collected)|
    ensures retval[..outpos] == old(retval[..start]) + Chars(Drawn(accumulator, collected))
    ensures forall j :: outpos <= j < retval.Length ==> retval[j] == old(retval[j])
  {
    hide Field, Char64;
    Pow2s();
    outpos, bits := start, collected;
    ghost var goal := old(retval[..start]) + Chars(Drawn(accumulator, collected));
    while bits >= 6
      invariant start <= outpos && outpos + |Drawn(accumulator, bits)| == start + |Drawn(accumulator, collected)|
      invariant retval[..outpos] + Chars(Drawn(accumulator, bits)) == goal
      invariant bits % 6 == collected % 6
      invariant forall j :: outpos <= j < retval.Length ==> retval[j] == old(retval[j])
    {
      ghost var before := retval[..outpos];
      bits := bits - 6;
      retval[outpos] := Char64(Field(accumulator, bits, 6));
      outpos := outpos + 1;
      assert retval[..outpos] == before + Chars([Field(accumulator, bits, 6)]);
      CharsAppend([Field(accumulator, bits, 6)], Drawn(accumulator, bits));
    }
  }

  lemma BitsNext(n: nat)
    ensures (2 * Phase(n) + 8) % 6 == 2 * Phase(n + 1)
  {
    PhaseNext(n);
  }

  /** The assertion at the end of Base64::encode, with unsigned sizes. */
  predicate Asserted(outpos: nat, size: nat) {
    outpos >= (size - 2) % SIZE_T_MODULUS && outpos <= size
  }

  lemma AssertedUnlessEmpty(n: nat)
    requires n < SIZE_T_MODULUS / 4
    ensures Asserted(OutputSize(n) - |Padding(n)|, OutputSize(n)) <==> n != 0
  {
    var size := OutputSize(n);
    if n > 0 {
      assert 4 <= size < SIZE_T_MODULUS;
      DivUnique(size - 2, SIZE_T_MODULUS, 0, size - 2);
    } else {
      DivUnique(0 - 2, SIZE_T_MODULUS, -1, SIZE_T_MODULUS - 2);
    }
  }

  /** `asserted` is the condition Base64::encode checks at its end; the function in
      http_proxy/utils.cpp is the same without the check. */
  method Encode(bindata: bytes) returns (text: bytes, asserted: bool)
    requires |bindata| < SIZE_T_MODULUS / 4
    ensures text == EncodeText(bindata) && |text| == OutputSize(|bindata|)
    ensures asserted <==> bindata != []
  {
    hide Char64, Completed, Drawn, Pending, Chars, Pow2, Asserted, Phase, Field, Low, Push, OutputSize;
    var retval := new byte[OutputSize(|bindata|)](_ => PAD);
    var outpos: nat, bits: nat, accumulator: nat := 0, 0, 0;
    NothingYet(bindata);
    Written(bindata);
    for i := 0 to |bindata|
      invariant bits == 2 * Phase(i) && Low(accumulator, bits) == Pending(bindata[..i])
      invariant outpos == |Completed(bindata[..i])|
      invariant outpos <= retval.Length && retval[..outpos] == Chars(Completed(bindata[..i]))
      invariant forall j :: outpos <= j < retval.Length ==> retval[j] == PAD
    {
      var b := bindata[i];
      assert bindata[..i + 1] == bindata[..i] + [b];
      DrawnByByte(bindata[..i], b, accumulator);
      CompletedGrows(bindata, i + 1);
      BitsNext(i);
      accumulator := Push(accumulator, 8, b);
      bits := bits + 8;
      CharsAppend(Completed(bindata[..i]), Drawn(accumulator, bits));
      outpos, bits := Draw(retval, outpos, accumulator, bits);
    }
    assert bindata[..|bindata|] == bindata;
    AssertedUnlessEmpty(|bindata|);
    CharsAppend(Completed(bindata), Trailing(bindata));
    if bits > 0 {
      TrailingShift(bindata, accumulator);
      accumulator := Push(accumulator, 6 - bits, 0);
      retval[outpos] := Char64(Low(accumulator, 6));
      outpos := outpos + 1;
    }
    asserted := Asserted(outpos, retval.Length);
    text := retval[..];
    assert text == retval[..outpos] + retval[outpos..];
    assert retval[outpos..] == Padding(|bindata|);
  }

  lemma NothingYet(s: bytes)
    ensures s[..0] == [] && Completed([]) == [] && Phase(0) == 0 && Low(0, 0) == Pending([])
  {
  }

  /** The last sextet is the pending bits, shifted. */
  lemma TrailingShift(s: bytes, acc: nat)
    requires Phase(|s|) > 0 && Low(acc, 2 * Phase(|s|)) == Pending(s)
    ensures var v := Low(Push(acc, 6 - 2 * Phase(|s|), 0), 6);
            v < 64 && Trailing(s) == [v]
  {
    hide Low, Push;
    ShiftZeros(acc);
  }

  lemma PendingOfGroups(a: bytes, s: bytes)
    requires |a| == 3
    ensures Phase(|a + s|) == Phase(|s|) && Pending(a + s) == Pending(s)
  {
    DivUnique(|s| + 3, 3, |s| / 3 + 1, |s| % 3);
  }

  lemma {:induction false} CompletedOfGroups(a: bytes, s: bytes)
    requires |a| == 3
    ensures Completed(a + s) == Completed(a) + Completed(s)
  {
    hide Phase, Pending, Draws, Completed;
    if s == [] {
      NothingYet([]);
      assert a + s == a;
    } else {
      var front, b := s[..|s| - 1], s[|s| - 1];
      assert a + s == a + front + [b] && s == front + [b];
      CompletedOfGroups(a, front);
      PendingOfGroups(a, front);
      CompletedNext(a + front, b);
      CompletedNext(front, b);
    }
  }

  lemma CompletedGroup(a: byte, b: byte, c: byte)
    ensures Completed([a]) == [a / 4]
    ensures Completed([a, b]) == [a / 4, a % 4 * 16 + b / 16]
    ensures Completed([a, b, c]) == [a / 4, a % 4 * 16 + b / 16, b % 16 * 4 + c / 64, c % 64]
  {
    assert [] + [a] == [a] && [a] + [b] == [a, b] && [a, b] + [c] == [a, b, c];
    CompletedNext([], a);
    CompletedNext([a], b);
    CompletedNext([a, b], c);
  }

  lemma EncodeOne(a: byte)
    ensures EncodeText([a]) == Chars([a / 4, a % 4 * 16]) + [PAD, PAD]
  {
    assert Phase(1) == 1;
    hide Completed, Chars, Phase;
    CompletedGroup(a, 0, 0);
    assert [a / 4] + [a % 4 * 16] == [a / 4, a % 4 * 16];
  }

  lemma EncodeTwo(a: byte, b: byte)
    ensures EncodeText([a, b]) == Chars([a / 4, a % 4 * 16 + b / 16, b % 16 * 4]) + [PAD]
  {
    assert Phase(2) == 2;
    hide Completed, Chars, Phase;
    CompletedGroup(a, b, 0);
    assert [a / 4, a % 4 * 16 + b / 16] + [b % 16 * 4] == [a / 4, a % 4 * 16 + b / 16, b % 16 * 4];
  }

  lemma EncodeNone()
    ensures EncodeText([]) == []
  {
    NothingYet([]);
  }

  lemma EncodeGroup(a: bytes, t: bytes)
    requires |a| == 3
    ensures EncodeText(a + t) == Chars(Completed(a)) + EncodeText(t)
  {
    hide Completed, Chars, Pending, Phase;
    CompletedOfGroups(a, t);
    PendingOfGroups(a, t);
    CharsAppend(Completed(a), Completed(t) + Trailing(t));
    assert Completed(a + t) + Trailing(a + t) == Completed(a) + (Completed(t) + Trailing(t));
  }

  lemma ReferenceGroup(s: bytes)
    requires |s| >= 3
    ensures Reference(s) == Chars([s[0] / 4, s[0] % 4 * 16 + s[1] / 16, s[1] % 16 * 4 + s[2] / 64, s[2] % 64])
          + Reference(s[3..])
  {
  }

  /** What the loop with the wrapping accumulator writes is the encoding of the standard. */
  lemma {:induction false} EncodeIsReference(s: bytes)
    ensures EncodeText(s) == Reference(s)
  {
    hide Completed, Chars, Pending, EncodeText;
    if |s| == 0 {
      EncodeNone();
    } else if |s| == 1 {
      EncodeOne(s[0]);
      assert s == [s[0]];
    } else if |s| == 2 {
      EncodeTwo(s[0], s[1]);
      assert s == [s[0], s[1]];
    } else {
      hide Reference;
      ReferenceGroup(s);
      var a, t := s[..3], s[3..];
      assert s == a + t && a == [s[0], s[1], s[2]];
      EncodeIsReference(t);
      EncodeGroup(a, t);
      CompletedGroup(s[0], s[1], s[2]);
    }
  }

  // ---- Decoding ----

  function Strip(s: bytes): (r: bytes)
    ensures forall i :: 0 <= i < |r| ==> !Skipped(r[i])
  {
    if s == [] then []
    else Strip(s[..|s| - 1]) + if Skipped(s[|s| - 1]) then [] else [s[|s| - 1]]
  }

  predicate AllLegal(s: bytes) { forall i :: 0 <= i < |s| ==> Legal(s[i]) }

  function Sextet(c: byte): sextet
    requires Legal(c)
  {
    Value64(c)
  }

  function Values(s: bytes): (vs: seq<sextet>)
    requires AllLegal(s)
    ensures |vs| == |s| && forall i :: 0 <= i < |s| ==> vs[i] == Value64(s[i])
  {
    seq(|s|, i requires 0 <= i < |s| => Sextet(s[i]))
  }

  function Phase4(n: nat): (p: nat)
    ensures p < 4
  {
    n % 4
  }

  lemma Phase4Next(n: nat)
    ensures Phase4(n + 1) == if Phase4(n) == 3 then 0 else Phase4(n) + 1
  {
    if n % 4 == 3 {
      DivUnique(n + 1, 4, n / 4 + 1, 0);
    } else {
      DivUnique(n + 1, 4, n / 4, n % 4 + 1);
    }
  }

  /** The byte that sextet `v` completes after `prev`, in each of the four phases. */
  function Yields(phase: nat, prev: sextet, v: sextet): bytes {
    if phase == 1 then [prev * 4 + v / 16]
    else if phase == 2 then [prev % 16 * 16 + v / 4]
    else if phase == 3 then [prev % 4 * 64 + v]
    else []
  }

  function LastOf(vs: seq<sextet>): sextet { if vs == [] then 0 else vs[|vs| - 1] }

  function Rebuilt(vs: seq<sextet>): bytes {
    if vs == [] then []
    else
      var front := vs[..|vs| - 1];
      Rebuilt(front) + Yields(Phase4(|front|), LastOf(front), LastOf(vs))
  }

  lemma RebuiltNext(vs: seq<sextet>, v: sextet)
    ensures Rebuilt(vs + [v]) == Rebuilt(vs) + Yields(Phase4(|vs|), LastOf(vs), v)
  {
    assert (vs + [v])[..|vs|] == vs;
  }

  /** One illegal character makes the whole result empty. */
  function DecodeText(s: bytes): bytes {
    var t := Strip(s);
    if AllLegal(t) then Rebuilt(Values(t)) else []
  }

  /** The bits collected and not yet in a byte. */
  function LeftBits(phase: nat): nat {
    if phase == 0 then 0 else if phase == 1 then 6 else if phase == 2 then 4 else 2
  }

  lemma YieldedBySextet(vs: seq<sextet>, v: sextet, acc: nat)
    requires Low(acc, LeftBits(Phase4(|vs|))) == Low(LastOf(vs), LeftBits(Phase4(|vs|)))
    ensures var a, bits := Push(acc, 6, v), LeftBits(Phase4(|vs|)) + 6;
            && (bits < 8 ==> bits == LeftBits(Phase4(|vs| + 1)) && Yields(Phase4(|vs|), LastOf(vs), v) == [])
            && (bits >= 8 ==> bits - 8 == LeftBits(Phase4(|vs| + 1)))
            && (bits >= 8 ==>
                  Field(a, bits - 8, 8) < 256 && Yields(Phase4(|vs|), LastOf(vs), v) == [Field(a, bits - 8, 8)])
            && Low(a, LeftBits(Phase4(|vs| + 1))) == Low(v, LeftBits(Phase4(|vs| + 1)))
  {
    hide Push, Field, Phase4;
    ShiftInSextet(acc, v);
    Phase4Next(|vs|);
    Pow2s();
    var u := LastOf(vs);
    DivUnique(u, 64, 0, u);
    DivUnique(v, 64, 0, v);
    DivUnique(v, 1, v, 0);
  }

  /** One more character. */
  lemma StripNext(s: bytes, c: byte)
    ensures Strip(s + [c]) == if Skipped(c) then Strip(s) else Strip(s) + [c]
    ensures AllLegal(Strip(s)) && Legal(c) && !Skipped(c) ==>
              AllLegal(Strip(s + [c])) && Values(Strip(s + [c])) == Values(Strip(s)) + [Sextet(c)]
    ensures Skipped(c) ==> Strip(s + [c]) == Strip(s)
  {
    hide Skipped, Legal;
    assert (s + [c])[..|s|] == s;
  }

  lemma {:induction false} StripAppend(x: bytes, y: bytes)
    ensures Strip(x + y) == Strip(x) + Strip(y)
  {
    if y == [] {
      assert x + y == x;
    } else {
      var front, c := y[..|y| - 1], y[|y| - 1];
      assert x + y == x + front + [c] && y == front + [c];
      StripAppend(x, front);
      StripNext(x + front, c);
      StripNext(front, c);
    }
  }

  method Decode(ascdata: bytes) returns (text: bytes)
    ensures text == DecodeText(ascdata)
  {
    hide Strip, Values, Rebuilt, Skipped, Value64, Legal, AllLegal, Field, Low, Push, Phase4, Pow2, LeftBits, Yields;
    text := [];
    var bits, accumulator: nat := 0, 0;
    NothingDecoded();
    for i := 0 to |ascdata|
      invariant AllLegal(Strip(ascdata[..i]))
      invariant text == Rebuilt(Values(Strip(ascdata[..i])))
      invariant bits == LeftBits(Phase4(|Strip(ascdata[..i])|))
      invariant Low(accumulator, bits) == Low(LastOf(Values(Strip(ascdata[..i]))), bits)
    {
      var c := ascdata[i];
      ghost var vs := Values(Strip(ascdata[..i]));
      assert ascdata[..i + 1] == ascdata[..i] + [c];
      StripNext(ascdata[..i], c);
      if Skipped(c) {
        continue;
      }
      if !Legal(c) {
        IllegalSpoils(ascdata, i);
        return [];
      }
      YieldedBySextet(vs, Sextet(c), accumulator);
      RebuiltNext(vs, Sextet(c));
      accumulator := Push(accumulator, 6, Value64(c));
      bits := bits + 6;
      if bits >= 8 {
        bits := bits - 8;
        text := text + [Field(accumulator, bits, 8)];
      }
    }
    assert ascdata[..|ascdata|] == ascdata;
  }

  lemma NothingDecoded()
    ensures Strip([]) == [] && AllLegal([]) && Values([]) == [] && Rebuilt([]) == [] && LeftBits(Phase4(0)) == 0
  {
  }

  lemma IllegalSpoils(s: bytes, i: nat)
    requires i < |s| && !Skipped(s[i]) && !Legal(s[i])
    ensures !AllLegal(Strip(s))
  {
    var front := s[..i + 1];
    assert s == front + s[i + 1..] && front == s[..i] + [s[i]];
    StripAppend(front, s[i + 1..]);
    StripNext(s[..i], s[i]);
    assert Strip(s)[|Strip(s[..i])|] == s[i];
  }

  // ---- The round trip ----

  lemma AlphabetRoundTrip(v: sextet)
    ensures Value64(Char64(v)) == v && !Skipped(Char64(v))
  {
  }

  lemma StripNone()
    ensures Chars([]) == [] && Strip([]) == []
  {
  }

  lemma OneChar(v: sextet)
    ensures Chars([v]) == [Char64(v)]
  {
  }

  lemma {:induction false} StripChars(vs: seq<sextet>)
    ensures Strip(Chars(vs)) == Chars(vs)
  {
    hide Skipped, Char64, Chars, Strip, Value64, Legal;
    StripNone();
    if vs != [] {
      var front, v := vs[..|vs| - 1], vs[|vs| - 1];
      StripChars(front);
      AlphabetRoundTrip(v);
      assert vs == front + [v];
      CharsAppend(front, [v]);
      OneChar(v);
      StripNext(Chars(front), Char64(v));
    }
  }

  lemma StripPadding(n: nat)
    ensures Strip(Padding(n)) == []
  {
    assert [] + [PAD] == [PAD] && [PAD] + [PAD] == [PAD, PAD];
    StripNext([], PAD);
    StripNext([PAD], PAD);
  }

  lemma ValuesOfChars(vs: seq<sextet>)
    ensures AllLegal(Chars(vs)) && Values(Chars(vs)) == vs
  {
    hide Value64, Char64;
    forall i | 0 <= i < |vs| ensures Value64(Chars(vs)[i]) == vs[i] {
      AlphabetRoundTrip(vs[i]);
    }
  }

  /** What the sextets of byte `b` rebuild in each phase; `x` is the byte before it. */
  lemma RebuiltDraws0(vs: seq<sextet>, b: byte)
    requires Phase4(|vs|) == 0
    ensures Rebuilt(vs + Draws(0, 0, b)) == Rebuilt(vs) && LastOf(vs + Draws(0, 0, b)) == b / 4
  {
    hide Rebuilt, Phase4;
    RebuiltNext(vs, b / 4);
  }

  lemma RebuiltDraws1(vs: seq<sextet>, x: byte, b: byte)
    requires Phase4(|vs|) == 1 && LastOf(vs) == x / 4
    ensures Rebuilt(vs + Draws(1, x % 4, b)) == Rebuilt(vs) + [x]
    ensures LastOf(vs + Draws(1, x % 4, b)) % 16 == b / 16
  {
    hide Rebuilt, Phase4;
    var v := x % 4 * 16 + b / 16;
    RebuiltNext(vs, v);
    DivUnique(v, 16, x % 4, b / 16);
  }

  lemma RebuiltDraws2(vs: seq<sextet>, x: byte, b: byte)
    requires Phase4(|vs|) == 2 && LastOf(vs) % 16 == x / 16
    ensures Rebuilt(vs + Draws(2, x % 16, b)) == Rebuilt(vs) + [x, b]
  {
    hide Rebuilt, Phase4;
    var w := x % 16 * 4 + b / 64;
    RebuiltNext(vs, w);
    RebuiltNext(vs + [w], b % 64);
    Phase4Next(|vs|);
    assert vs + [w, b % 64] == vs + [w] + [b % 64];
    DivUnique(w, 4, x % 16, b / 64);
  }

  lemma DrawsPhase4(n: nat, phase: nat, pending: nat, b: byte)
    requires (phase == 0 && pending == 0) || (phase == 1 && pending < 4) || (phase == 2 && pending < 16)
    requires Phase4(n) == phase
    ensures Phase4(n + |Draws(phase, pending, b)|) == if phase == 2 then 0 else phase + 1
  {
    Phase4Next(n);
    Phase4Next(n + 1);
  }

  /** The sextets completed so far hold every byte but the one in progress, and its upper bits. */
  lemma {:induction false} RebuiltCompleted(s: bytes)
    ensures Phase4(|Completed(s)|) == Phase(|s|)
    ensures Rebuilt(Completed(s)) == if Phase(|s|) == 0 then s else s[..|s| - 1]
    ensures Phase(|s|) == 1 ==> LastOf(Completed(s)) == s[|s| - 1] / 4
    ensures Phase(|s|) == 2 ==> LastOf(Completed(s)) % 16 == s[|s| - 1] / 16
  {
    hide Rebuilt, Phase, Phase4, Completed, Draws;
    if s == [] {
      NothingYet([]);
      NothingRebuilt();
    } else {
      var front, b := s[..|s| - 1], s[|s| - 1];
      Snoc(s);
      Snoc(front);
      RebuiltCompleted(front);
      PhaseNext(|front|);
      CompletedNext(front, b);
      DrawsPhase4(|Completed(front)|, Phase(|front|), Pending(front), b);
      if Phase(|front|) == 0 {
        RebuiltDraws0(Completed(front), b);
      } else if Phase(|front|) == 1 {
        RebuiltDraws1(Completed(front), front[|front| - 1], b);
      } else {
        RebuiltDraws2(Completed(front), front[|front| - 1], b);
      }
    }
  }

  lemma Snoc(s: bytes)
    ensures Phase(|s|) != 0 ==> s != []
    ensures s != [] ==> s == s[..|s| - 1] + [s[|s| - 1]]
  {
  }

  lemma NothingRebuilt()
    ensures Rebuilt([]) == [] && Phase4(0) == 0 && Phase(0) == 0
  {
  }

  lemma RebuiltWhole(s: bytes)
    ensures Rebuilt(Completed(s) + Trailing(s)) == s
  {
    hide Rebuilt, Phase, Phase4, Completed;
    RebuiltCompleted(s);
    var vs, p := Completed(s), Pending(s);
    if Phase(|s|) == 0 {
      assert vs + [] == vs;
    } else if Phase(|s|) == 1 {
      RebuiltNext(vs, p * 16);
      DivUnique(p * 16, 16, p, 0);
      Snoc(s);
    } else {
      RebuiltNext(vs, p * 4);
      DivUnique(p * 4, 4, p, 0);
      Snoc(s);
    }
  }

  /** Decoding undoes encoding, for every byte string. */
  lemma Base64RoundTrip(s: bytes)
    ensures DecodeText(EncodeText(s)) == s
  {
    hide Rebuilt, Completed, Trailing, Strip, AllLegal;
    var vs := Completed(s) + Trailing(s);
    StripAppend(Chars(vs), Padding(|s|));
    StripChars(vs);
    StripPadding(|s|);
    assert Chars(vs) + [] == Chars(vs);
    ValuesOfChars(vs);
    RebuiltWhole(s);
  }

  /** White space or '=' anywhere leaves the decoding unchanged. */
  lemma SkippedAnywhere(x: bytes, w: byte, y: bytes)
    requires Skipped(w)
    ensures DecodeText(x + [w] + y) == DecodeText(x + y)
  {
    hide Rebuilt, Values, AllLegal, Skipped;
    StripAppend(x + [w], y);
    StripAppend(x, y);
    StripNext(x, w);
  }
}
