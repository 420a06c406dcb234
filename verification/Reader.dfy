/** The reader every parser works on (StreamReader): each read either consumes a prefix,
    asks for more bytes (AG) or rejects the input (NG). */
module Reader {
  import opened Bytes

  /** What reading a prefix of some bytes gives: a value and the bytes left over,
      "again" when the bytes end too early, "bad" when no continuation can help. */
  datatype Parse<+T> = Ok(value: T, rest: bytes) | Again | Bad {
    predicate IsFailure() { !Ok? }

    function PropagateFailure<U>(): Parse<U>
      requires IsFailure()
    {
      if Again? then Again else Bad
    }

    function Extract(): (T, bytes)
      requires Ok?
    {
      (value, rest)
    }
  }

  /** More input after `t` does not change a decided result. */
  ghost predicate Extends<T(!new)>(p: Parse<T>, t: bytes, q: Parse<T>) {
    match p
    case Ok(v, r) => q == Ok(v, r + t)
    case Bad => q == Bad
    case Again => true
  }

  // ---- The reads, as functions of the bytes not yet consumed ----

  function Reject(cond: bool, s: bytes): Parse<()> {
    if cond then Bad else Ok((), s)
  }

  function TakeSize(s: bytes, size: nat): Parse<bytes> {
    if size > |s| then Again else Ok(s[..size], s[size..])
  }

  function TakeByte(s: bytes): Parse<byte> {
    if s == [] then Again else Ok(s[0], s[1..])
  }

  function PeekByte(s: bytes): Parse<byte> {
    if s == [] then Again else Ok(s[0], s)
  }

  /** The first position in `s` whose byte is (or is not) one of `cs`; |s| if there is none. */
  function Find(s: bytes, cs: bytes, wanted: bool): (i: nat)
    ensures i <= |s|
    ensures forall j :: 0 <= j < i ==> (s[j] in cs) != wanted
    ensures i < |s| ==> (s[i] in cs) == wanted
  {
    if s == [] || (s[0] in cs) == wanted then 0 else 1 + Find(s[1..], cs, wanted)
  }

  function TakeWhile(s: bytes, cs: bytes, nullable: bool): (p: Parse<bytes>)
    ensures p.Ok? ==> |p.rest| <= |s|
  {
    var i := Find(s, cs, false);
    if i == |s| then Again
    else if i == 0 && !nullable then Bad
    else Ok(s[..i], s[i..])
  }

  function TakeUntil(s: bytes, cs: bytes, eatFinal: bool): (p: Parse<bytes>)
    ensures p.Ok? ==> |p.rest| <= |s|
  {
    var i := Find(s, cs, true);
    if i == |s| then Again else Ok(s[..i], s[if eatFinal then i + 1 else i..])
  }

  /** The position found is the only one with its two properties. */
  lemma FindUnique(s: bytes, cs: bytes, wanted: bool, i: nat)
    requires i <= |s|
    requires forall j :: 0 <= j < i ==> (s[j] in cs) != wanted
    requires i < |s| ==> (s[i] in cs) == wanted
    ensures Find(s, cs, wanted) == i
  {
  }

  lemma FindAppend(s: bytes, t: bytes, cs: bytes, wanted: bool)
    requires Find(s, cs, wanted) < |s|
    ensures Find(s + t, cs, wanted) == Find(s, cs, wanted)
  {
    FindUnique(s + t, cs, wanted, Find(s, cs, wanted));
  }

  lemma TakeSizeExtends(s: bytes, t: bytes, size: nat)
    ensures Extends(TakeSize(s, size), t, TakeSize(s + t, size))
  {
    if size <= |s| {
      assert (s + t)[..size] == s[..size];
      assert (s + t)[size..] == s[size..] + t;
    }
  }

  lemma TakeByteExtends(s: bytes, t: bytes)
    ensures Extends(TakeByte(s), t, TakeByte(s + t))
    ensures Extends(PeekByte(s), t, PeekByte(s + t))
  {
    if s != [] {
      assert (s + t)[1..] == s[1..] + t;
    }
  }

  lemma TakeWhileExtends(s: bytes, t: bytes, cs: bytes, nullable: bool)
    ensures Extends(TakeWhile(s, cs, nullable), t, TakeWhile(s + t, cs, nullable))
  {
    var i := Find(s, cs, false);
    if i < |s| {
      FindAppend(s, t, cs, false);
      assert (s + t)[..i] == s[..i];
      assert (s + t)[i..] == s[i..] + t;
    }
  }

  lemma TakeUntilExtends(s: bytes, t: bytes, cs: bytes, eatFinal: bool)
    ensures Extends(TakeUntil(s, cs, eatFinal), t, TakeUntil(s + t, cs, eatFinal))
  {
    var i := Find(s, cs, true);
    if i < |s| {
      FindAppend(s, t, cs, true);
      assert (s + t)[..i] == s[..i];
      var k := if eatFinal then i + 1 else i;
      assert (s + t)[k..] == s[k..] + t;
    }
  }

  /** Reading up to a delimiter that follows a delimiter-free piece gives that piece. */
  lemma TakeUntilPiece(a: bytes, d: byte, b: bytes, eatFinal: bool)
    requires d !in a
    ensures TakeUntil(a + [d] + b, [d], eatFinal) == Ok(a, if eatFinal then b else [d] + b)
  {
    var s := a + [d] + b;
    FindUnique(s, [d], true, |a|);
    assert s[..|a|] == a && s[|a|..] == [d] + b && s[|a| + 1..] == b;
  }

  // ---- The class the parsers are written against ----

  /** The exceptions of the reader, as a result. */
  datatype Outcome<+T> = Got(value: T) | AG | NG {
    predicate IsFailure() { !Got? }

    function PropagateFailure<U>(): Outcome<U>
      requires IsFailure()
    {
      if AG? then AG else NG
    }

    function Extract(): T
      requires Got?
    {
      value
    }
  }

  /** A method's outcome, and the bytes it left, are what the specification `p` says. */
  ghost predicate Agrees<T>(o: Outcome<T>, p: Parse<T>, rest: bytes) {
    match p
    case Ok(v, r) => o == Got(v) && rest == r
    case Again => o == AG
    case Bad => o == NG
  }

  class StreamReader {
    const str: bytes
    var offset: nat

    ghost predicate Valid()
      reads this
    {
      offset <= |str|
    }

    function Rest(): bytes
      requires Valid()
      reads this
    {
      str[offset..]
    }

    constructor (str: bytes)
      ensures Valid() && this.str == str && offset == 0
    {
      this.str := str;
      offset := 0;
    }

    method ReadSize(size: nat) returns (r: Outcome<bytes>)
      requires Valid()
      modifies this
      ensures Valid() && Agrees(r, TakeSize(old(Rest()), size), Rest())
      ensures !r.Got? ==> offset == old(offset)
    {
      if size > |str| - offset {
        return AG;
      }
      r := Got(str[offset..offset + size]);
      assert str[offset..][..size] == str[offset..offset + size];
      offset := offset + size;
    }

    method ReadPlain() returns (r: Outcome<byte>)
      requires Valid()
      modifies this
      ensures Valid() && Agrees(r, TakeByte(old(Rest())), Rest())
      ensures !r.Got? ==> offset == old(offset)
    {
      if 1 > |str| - offset {
        return AG;
      }
      r := Got(str[offset]);
      offset := offset + 1;
    }

    method PreadPlain() returns (r: Outcome<byte>)
      requires Valid()
      ensures Agrees(r, PeekByte(Rest()), Rest())
    {
      r := if 1 > |str| - offset then AG else Got(str[offset]);
    }

    /** An unsigned number of `size` bytes in network byte order. */
    method ReadNumber(size: nat) returns (r: Outcome<nat>)
      requires Valid()
      modifies this
      ensures Valid()
      ensures match TakeSize(old(Rest()), size)
              case Ok(v, rest) => r == Got(FromBigEndian(v)) && Rest() == rest
              case _ => r == AG
    {
      var raw :- ReadSize(size);
      r := Got(FromBigEndian(raw));
    }

    method ReadUp(cs: bytes, nullable: bool := true) returns (r: Outcome<bytes>)
      requires Valid()
      modifies this
      ensures Valid() && Agrees(r, TakeWhile(old(Rest()), cs, nullable), Rest())
    {
      var init := offset;
      while offset < |str|
        invariant init <= offset <= |str|
        invariant forall j :: init <= j < offset ==> str[j] in cs
      {
        var ch := str[offset];
        if ch in cs {
          offset := offset + 1;
        } else {
          FindUnique(str[init..], cs, false, offset - init);
          assert str[init..][..offset - init] == str[init..offset];
          if offset == init && !nullable {
            return NG;
          }
          return Got(str[init..offset]);
        }
      }
      FindUnique(str[init..], cs, false, |str| - init);
      return AG;
    }

    method ReadUntil(cs: bytes, eatFinal: bool := false) returns (r: Outcome<bytes>)
      requires Valid()
      modifies this
      ensures Valid() && Agrees(r, TakeUntil(old(Rest()), cs, eatFinal), Rest())
    {
      var init := offset;
      while offset < |str|
        invariant init <= offset <= |str|
        invariant forall j :: init <= j < offset ==> str[j] !in cs
      {
        var ch := str[offset];
        if ch !in cs {
          offset := offset + 1;
        } else {
          FindUnique(str[init..], cs, true, offset - init);
          r := Got(str[init..offset]);
          assert str[init..][..offset - init] == str[init..offset];
          if eatFinal {
            offset := offset + 1;
          }
          return;
        }
      }
      FindUnique(str[init..], cs, true, |str| - init);
      return AG;
    }

    method FailIf(cond: bool) returns (r: Outcome<()>)
      requires Valid()
      ensures Agrees(r, Reject(cond, Rest()), Rest())
    {
      r := if cond then NG else Got(());
    }

    predicate End()
      reads this
    {
      offset >= |str|
    }
  }
}
