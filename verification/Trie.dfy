/** The keyword index: a trie of UTF-8 characters built on the heap, and its two searches
    (DataStructure/Trie.cpp). */
module Ordered {
  import opened Bytes

  /** std::string's order: bytewise, a proper prefix first. */
  predicate Less(a: bytes, b: bytes) {
    b != [] && (a == [] || a[0] < b[0] || (a[0] == b[0] && Less(a[1..], b[1..])))
  }

  lemma {:induction false} LessTotal(a: bytes, b: bytes)
    ensures a == b || Less(a, b) || Less(b, a)
    ensures !Less(a, a)
  {
    if a != [] {
      LessTotal(a[1..], if b == [] then a[1..] else b[1..]);
      if b != [] && a[0] == b[0] && a[1..] == b[1..] {
        assert a == [a[0]] + a[1..] && b == [b[0]] + b[1..];
      }
    }
  }

  lemma {:induction false} LessTransitive(a: bytes, b: bytes, c: bytes)
    requires Less(a, b) && Less(b, c)
    ensures Less(a, c)
  {
    if a != [] && a[0] == b[0] && b[0] == c[0] {
      LessTransitive(a[1..], b[1..], c[1..]);
    }
  }

  predicate Sorted(s: seq<bytes>) { forall i, j :: 0 <= i < j < |s| ==> Less(s[i], s[j]) }

  ghost function Elements(s: seq<bytes>): set<bytes> { set x | x in s }

  lemma ElementsStep(k: bytes, s: seq<bytes>)
    ensures Elements([k] + s) == Elements(s) + {k}
  {
    assert forall x :: x in [k] + s <==> x == k || x in s;
  }

  lemma PutFirst(k: bytes, s: seq<bytes>)
    requires Sorted(s) && s != [] && Less(k, s[0])
    ensures Sorted([k] + s) && Elements([k] + s) == Elements(s) + {k}
  {
    ElementsStep(k, s);
    forall i | 0 <= i < |s| ensures Less(k, s[i]) {
      if i > 0 {
        LessTransitive(k, s[0], s[i]);
      }
    }
  }

  lemma PutLater(k: bytes, s: seq<bytes>, t: seq<bytes>)
    requires Sorted(s) && s != [] && Less(s[0], k) && Sorted(t) && Elements(t) == Elements(s[1..]) + {k}
    ensures Sorted([s[0]] + t) && Elements([s[0]] + t) == Elements(s) + {k}
  {
    forall i | 0 <= i < |t| ensures Less(s[0], t[i]) {
      assert t[i] in Elements(t);
    }
    ElementsStep(s[0], t);
    ElementsStep(s[0], s[1..]);
    assert s == [s[0]] + s[1..];
  }

  /** Inserting a key into a map<string, bool>, the map known by its keys in order. */
  function Insert(s: seq<bytes>, k: bytes): (r: seq<bytes>)
    requires Sorted(s)
    ensures Sorted(r) && Elements(r) == Elements(s) + {k}
  {
    if s == [] then [k]
    else if s[0] == k then s
    else if Less(k, s[0]) then
      PutFirst(k, s);
      [k] + s
    else
      LessTotal(k, s[0]);
      PutLater(k, s, Insert(s[1..], k));
      [s[0]] + Insert(s[1..], k)
  }

  lemma NoElements(s: seq<bytes>)
    ensures Elements(s) == {} <==> s == []
  {
    if s != [] {
      assert s[0] in Elements(s);
    }
  }

  lemma SortedNothing()
    ensures Sorted([])
  {
  }

  /** A sorted listing without duplicates is determined by its elements. */
  lemma {:induction false} SortedUnique(s: seq<bytes>, t: seq<bytes>)
    requires Sorted(s) && Sorted(t) && Elements(s) == Elements(t)
    ensures s == t
  {
    NoElements(s);
    NoElements(t);
    if s != [] && t != [] {
      assert s[0] in Elements(t) && t[0] in Elements(s);
      LessTotal(s[0], s[0]);
      if s[0] != t[0] {
        assert Less(t[0], s[0]) && Less(s[0], t[0]);
        LessTransitive(s[0], t[0], s[0]);
      }
      forall i | 0 < i < |s| ensures s[i] != s[0] { LessTotal(s[i], s[i]); }
      forall i | 0 < i < |t| ensures t[i] != t[0] { LessTotal(t[i], t[i]); }
      assert s == [s[0]] + s[1..] && t == [t[0]] + t[1..];
      assert Elements(s[1..]) == Elements(s) - {s[0]};
      assert Elements(t[1..]) == Elements(t) - {t[0]};
      SortedUnique(s[1..], t[1..]);
    }
  }

  /** The one sorted listing of these keys. */
  ghost predicate IsListing(s: seq<bytes>, keys: set<bytes>) {
    Sorted(s) && Elements(s) == keys && forall t :: Sorted(t) && Elements(t) == keys ==> t == s
  }

  lemma Listed(s: seq<bytes>)
    requires Sorted(s)
    ensures IsListing(s, Elements(s))
  {
    forall t | Sorted(t) && Elements(t) == Elements(s) ensures t == s {
      SortedUnique(t, s);
    }
  }
}

module TrieIndex {
  import opened Bytes
  import opened Utf8Codec
  import opened Ordered

  /** A way down from the root: one character a step. */
  type Path = seq<bytes>

  // ---- What an index of keywords is, and what the searches find in it ----

  /** Each non-empty keyword sits at the path of its decodable characters; the last one wins. */
  function Index(keywords: seq<bytes>): map<Path, bytes> {
    if keywords == [] then map[]
    else
      var before, k := Index(keywords[..|keywords| - 1]), keywords[|keywords| - 1];
      if k == [] then before else before[Split(k) := k]
  }

  /** The longest of the first `n` prefixes of `cs` that holds a value; 0 if none does. */
  function Longest(m: map<Path, bytes>, cs: Path, n: nat): (r: nat)
    requires n <= |cs|
    ensures r <= n && (r > 0 ==> cs[..r] in m)
    ensures forall i :: r < i <= n ==> cs[..i] !in m
  {
    if n == 0 then 0 else if cs[..n] in m then n else Longest(m, cs, n - 1)
  }

  /** At each character take the longest match and jump past it, else advance one character. */
  function NonOverlapping(m: map<Path, bytes>, cs: Path): set<bytes>
    decreases |cs|
  {
    if cs == [] then {}
    else
      var n := Longest(m, cs, |cs|);
      if n == 0 then NonOverlapping(m, cs[1..]) else {m[cs[..n]]} + NonOverlapping(m, cs[n..])
  }

  /** The matches among the first `n` prefixes. */
  function PrefixMatches(m: map<Path, bytes>, cs: Path, n: nat): set<bytes>
    requires n <= |cs|
  {
    set i | 1 <= i <= n && cs[..i] in m :: m[cs[..i]]
  }

  function Overlapping(m: map<Path, bytes>, cs: Path): set<bytes>
    decreases |cs|
  {
    if cs == [] then {} else PrefixMatches(m, cs, |cs|) + Overlapping(m, cs[1..])
  }

  // ---- Characters of prefixes ----

  lemma {:induction false} JoinAppend(a: Path, b: Path)
    ensures Join(a + b) == Join(a) + Join(b)
  {
    if a == [] {
      assert a + b == b;
    } else {
      assert (a + b)[1..] == a[1..] + b;
      JoinAppend(a[1..], b);
    }
  }

  lemma {:induction false} SplitPrefix(t: bytes)
    ensures Join(Split(t)) <= t
    decreases |t|
  {
    hide CharLength;
    var n := CharLength(t);
    if n > 0 {
      SplitPrefix(t[n..]);
      assert Split(t)[1..] == Split(t[n..]);
      assert t == t[..n] + t[n..];
    }
  }

  lemma DecodableTail(k: bytes)
    requires Decodable(k) && k != []
    ensures CharLength(k) > 0 && Decodable(k[CharLength(k)..])
  {
    var n := CharLength(k);
    if n > 0 {
      assert Split(k)[1..] == Split(k[n..]);
      assert k[n..] == (k[..n] + Join(Split(k[n..])))[n..];
    }
  }

  lemma {:induction false} SplitOfAppend(k: bytes, u: bytes)
    requires Decodable(k)
    ensures Split(k + u) == Split(k) + Split(u)
    decreases |k|
  {
    hide CharLength, CodePoint, Decodable;
    if k == [] {
      NoChar();
      assert k + u == u;
    } else {
      DecodableTail(k);
      CharLengthAppend(k, u);
      SplitOfAppend(k[CharLength(k)..], u);
    }
  }

  /** A decodable keyword begins the text exactly when its characters begin the text's. */
  lemma PrefixIff(k: bytes, t: bytes)
    requires Decodable(k)
    ensures k <= t <==> Split(k) <= Split(t)
    ensures k <= t ==> Split(t) == Split(k) + Split(t[|k|..])
  {
    hide Split;
    if k <= t {
      assert t == k + t[|k|..];
      SplitOfAppend(k, t[|k|..]);
    } else if Split(k) <= Split(t) {
      var rest := Split(t)[|Split(k)|..];
      assert Split(t) == Split(k) + rest;
      JoinAppend(Split(k), rest);
      SplitPrefix(t);
    }
  }

  ghost predicate AllDecodable(ks: seq<bytes>) { forall i :: 0 <= i < |ks| ==> Decodable(ks[i]) }

  /** For decodable keywords the index is their paths, each holding the path's own bytes. */
  lemma {:induction false} IndexExact(ks: seq<bytes>)
    requires AllDecodable(ks)
    ensures forall k :: k in ks && k != [] ==> Split(k) in Index(ks)
    ensures forall p :: p in Index(ks) ==> Index(ks)[p] in ks && Index(ks)[p] != [] && Split(Index(ks)[p]) == p
    ensures forall k :: k in ks && k != [] ==> Index(ks)[Split(k)] == k
  {
    hide Split;
    if ks != [] {
      var front, last := ks[..|ks| - 1], ks[|ks| - 1];
      IndexExact(front);
      assert ks == front + [last];
      forall k | k in ks && k != [] ensures Split(k) in Index(ks) && Index(ks)[Split(k)] == k {
        if Split(k) == Split(last) {
          assert Join(Split(k)) == k && Join(Split(last)) == last;
        }
      }
    }
  }

  // ---- Non-overlapping search is the leftmost-longest scan ----

  function LongestKeyword(ks: seq<bytes>, t: bytes): (r: bytes)
    ensures r <= t && (r != [] ==> r in ks)
    ensures forall k :: k in ks && k <= t ==> |k| <= |r|
  {
    if ks == [] then []
    else
      var r, k := LongestKeyword(ks[..|ks| - 1], t), ks[|ks| - 1];
      assert ks == ks[..|ks| - 1] + [k];
      if k <= t && |k| > |r| then k else r
  }

  /** On bytes: at each character boundary, the longest keyword beginning there. */
  function Scan(ks: seq<bytes>, t: bytes): set<bytes>
    decreases |t|
  {
    var n := CharLength(t);
    if n == 0 then {}
    else
      var k := LongestKeyword(ks, t);
      if k == [] then Scan(ks, t[n..]) else {k} + Scan(ks, t[|k|..])
  }

  lemma LongestAgrees(ks: seq<bytes>, t: bytes)
    requires AllDecodable(ks)
    ensures var m, cs, k := Index(ks), Split(t), LongestKeyword(ks, t);
            var n := Longest(m, cs, |cs|);
            && (n == 0 <==> k == [])
            && (n > 0 ==> cs[..n] == Split(k) && m[cs[..n]] == k && cs[n..] == Split(t[|k|..]))
  {
    hide Split, Longest, Index, LongestKeyword;
    IndexExact(ks);
    var m, cs, k := Index(ks), Split(t), LongestKeyword(ks, t);
    var n := Longest(m, cs, |cs|);
    if k != [] {
      PrefixIff(k, t);
      assert cs[..|Split(k)|] == Split(k);
      SplitNotEmpty(k);
      assert |Split(k)| <= n;
    }
    if n > 0 {
      var k' := m[cs[..n]];
      PrefixIff(k', t);
      assert k' <= t;
      LongerPrefix(k, k', t);
      assert k' == k;
    }
  }

  lemma Joined(k: bytes)
    requires Decodable(k)
    ensures Join(Split(k)) == k
  {
  }

  /** Of two decodable prefixes of a text, one with at least as many characters has as many bytes. */
  lemma LongerPrefix(k: bytes, k': bytes, t: bytes)
    requires Decodable(k) && Decodable(k') && k <= t && k' <= t
    requires |Split(k)| <= |Split(k')|
    ensures |k| <= |k'| && (|k| == |k'| ==> k == k')
  {
    hide *;
    PrefixIff(k, t);
    PrefixIff(k', t);
    var a, b := Split(k), Split(k');
    assert b == a + b[|a|..];
    JoinAppend(a, b[|a|..]);
    Joined(k);
    Joined(k');
    assert k <= k';
  }

  lemma SplitNotEmpty(k: bytes)
    requires Decodable(k) && k != []
    ensures Split(k) != []
  {
    DecodableTail(k);
  }

  /** For decodable keywords and any text, the trie's scan over characters is the scan over bytes. */
  lemma {:induction false} NonOverlappingIsScan(ks: seq<bytes>, t: bytes)
    requires AllDecodable(ks)
    ensures NonOverlapping(Index(ks), Split(t)) == Scan(ks, t)
    decreases |t|
  {
    hide CharLength, Longest, Index, LongestKeyword, AllDecodable;
    var n := CharLength(t);
    if n > 0 {
      LongestAgrees(ks, t);
      assert Split(t)[1..] == Split(t[n..]);
      var k := LongestKeyword(ks, t);
      NonOverlappingIsScan(ks, if k == [] then t[n..] else t[|k|..]);
    }
  }

  // ---- Overlapping search is naive substring search ----

  /** UTF-8 up to the shape of its bytes: lead bytes followed by continuation bytes. */
  predicate WellFormed(s: bytes)
    decreases |s|
  {
    s == [] || (
      var n := CharLength(s);
      n > 0 && (forall i :: 1 <= i < n ==> 128 <= s[i] < 192) && WellFormed(s[n..]))
  }

  lemma {:induction false} WellFormedDecodable(s: bytes)
    requires WellFormed(s)
    ensures Decodable(s)
    decreases |s|
  {
    hide CharLength;
    if s != [] {
      var n := CharLength(s);
      WellFormedDecodable(s[n..]);
      assert Split(s)[1..] == Split(s[n..]);
      assert s == s[..n] + s[n..];
    } else {
      NoChar();
    }
  }

  ghost predicate Occurs(k: bytes, t: bytes) { exists a :: 0 <= a <= |t| && k <= t[a..] }

  /** Self-synchronisation: a keyword that occurs past the start occurs past the first character. */
  lemma OccursLater(k: bytes, t: bytes, a: nat)
    requires WellFormed(k) && k != [] && WellFormed(t)
    requires 0 < a <= |t| && k <= t[a..]
    ensures CharLength(t) <= a
  {
    if a < CharLength(t) {
      assert k[0] == t[a];
      LeadRanges(k[0]);
    }
  }

  lemma OccursHere(k: bytes, t: bytes, n: nat)
    requires n <= |t|
    ensures k <= t ==> Occurs(k, t)
    ensures Occurs(k, t[n..]) ==> Occurs(k, t)
  {
    if k <= t {
      assert t[0..] == t;
    }
    if Occurs(k, t[n..]) {
      var a :| 0 <= a <= |t[n..]| && k <= t[n..][a..];
      assert t[n..][a..] == t[n + a..];
    }
  }

  lemma OccursSplit(k: bytes, t: bytes)
    requires WellFormed(k) && k != [] && WellFormed(t) && t != []
    ensures Occurs(k, t) <==> k <= t || Occurs(k, t[CharLength(t)..])
  {
    hide CharLength, WellFormed;
    var n := CharLength(t);
    OccursHere(k, t, n);
    if Occurs(k, t) {
      var a :| 0 <= a <= |t| && k <= t[a..];
      if a > 0 {
        OccursLater(k, t, a);
        assert t[n..][a - n..] == t[a..];
      } else {
        assert t[0..] == t;
      }
    }
  }

  lemma PrefixMatchesExact(ks: seq<bytes>, t: bytes)
    requires AllDecodable(ks)
    ensures PrefixMatches(Index(ks), Split(t), |Split(t)|) == set k | k in ks && k != [] && k <= t
  {
    hide Split, Index;
    IndexExact(ks);
    var m, cs := Index(ks), Split(t);
    forall k | k in ks && k != [] && k <= t ensures k in PrefixMatches(m, cs, |cs|) {
      PrefixIff(k, t);
      SplitNotEmpty(k);
      assert cs[..|Split(k)|] == Split(k);
    }
    forall i | 1 <= i <= |cs| && cs[..i] in m ensures m[cs[..i]] <= t {
      PrefixIff(m[cs[..i]], t);
    }
  }

  /** For well-formed keywords and text: exactly the non-empty keywords that are byte substrings. */
  lemma {:induction false} OverlappingIsNaive(ks: seq<bytes>, t: bytes)
    requires (forall i :: 0 <= i < |ks| ==> WellFormed(ks[i])) && WellFormed(t)
    ensures Overlapping(Index(ks), Split(t)) == set k | k in ks && k != [] && Occurs(k, t)
    decreases |t|
  {
    hide CharLength, Index, PrefixMatches;
    forall i | 0 <= i < |ks| ensures Decodable(ks[i]) {
      WellFormedDecodable(ks[i]);
    }
    if t == [] {
      NoChar();
    } else {
      var n := CharLength(t);
      OverlappingIsNaive(ks, t[n..]);
      PrefixMatchesExact(ks, t);
      assert Split(t)[1..] == Split(t[n..]);
      forall k | k in ks && k != [] ensures Occurs(k, t) <==> k <= t || Occurs(k, t[n..]) {
        OccursSplit(k, t);
      }
    }
  }

  // ---- What a walk down the trie finds ----

  lemma {:induction false} LongestStops(m: map<Path, bytes>, cs: Path, d: nat, n: nat)
    requires d <= n <= |cs|
    requires forall i :: d < i <= n ==> cs[..i] !in m
    ensures Longest(m, cs, n) == Longest(m, cs, d)
  {
    if d < n {
      LongestStops(m, cs, d, n - 1);
    }
  }

  lemma MatchesStop(m: map<Path, bytes>, cs: Path, d: nat)
    requires d <= |cs|
    requires forall i :: d < i <= |cs| ==> cs[..i] !in m
    ensures PrefixMatches(m, cs, |cs|) == PrefixMatches(m, cs, d)
  {
  }

  lemma MatchesStep(m: map<Path, bytes>, cs: Path, d: nat)
    requires d < |cs|
    ensures PrefixMatches(m, cs, d + 1)
         == PrefixMatches(m, cs, d) + if cs[..d + 1] in m then {m[cs[..d + 1]]} else {}
  {
  }

  lemma LongestStep(m: map<Path, bytes>, cs: Path, d: nat)
    requires d < |cs|
    ensures Longest(m, cs, d + 1) == if cs[..d + 1] in m then d + 1 else Longest(m, cs, d)
  {
  }

  lemma NoneYet(m: map<Path, bytes>, cs: Path)
    ensures Longest(m, cs, 0) == 0 && PrefixMatches(m, cs, 0) == {}
  {
  }

  // ---- The trie on the heap ----

  /** The way down to a node, last step outermost. */
  datatype Trail = Top | Via(up: Trail, ch: bytes)

  function Steps(t: Trail): Path {
    match t
    case Top => []
    case Via(up, ch) => Steps(up) + [ch]
  }

  function TrailOf(p: Path): Trail {
    if p == [] then Top else Via(TrailOf(p[..|p| - 1]), p[|p| - 1])
  }

  lemma {:induction false} StepsOfTrail(p: Path)
    ensures Steps(TrailOf(p)) == p
  {
    if p != [] {
      StepsOfTrail(p[..|p| - 1]);
    }
  }

  lemma {:induction false} TrailOfSteps(t: Trail)
    ensures TrailOf(Steps(t)) == t
  {
    if t.Via? {
      TrailOfSteps(t.up);
      assert Steps(t)[..|Steps(t)| - 1] == Steps(t.up);
    }
  }

  lemma StepsOnce(t: Trail)
    ensures forall u {:trigger Steps(u)} :: Steps(u) == Steps(t) ==> u == t
  {
    forall u | Steps(u) == Steps(t) ensures u == t {
      TrailOfSteps(u);
      TrailOfSteps(t);
    }
  }

  lemma TrailOfNothing(p: Path)
    ensures TrailOf(p[..0]) == Top
  {
  }

  lemma IndexNothing()
    ensures Index([]) == map[]
  {
  }

  lemma IndexStep(ks: seq<bytes>, i: nat)
    requires i < |ks|
    ensures Index(ks[..i + 1]) == if ks[i] == [] then Index(ks[..i]) else Index(ks[..i])[Split(ks[i]) := ks[i]]
  {
    assert ks[..i + 1][..i] == ks[..i];
  }

  lemma SplitStep(t: bytes, offset: nat)
    requires offset <= |t|
    ensures var n := CharLength(t[offset..]);
            Split(t[offset..]) == if n == 0 then [] else [t[offset..offset + n]] + Split(t[offset + n..])
  {
    var n := CharLength(t[offset..]);
    assert t[offset..][..n] == t[offset..offset + n] && t[offset..][n..] == t[offset + n..];
  }

  /** The trail's characters followed by those of keyword[offset..] are the keyword's. */
  ghost predicate OnTrail(trail: Trail, keyword: bytes, offset: nat)
    requires offset <= |keyword|
  {
    Steps(trail) + Split(keyword[offset..]) == Split(keyword)
  }

  lemma OnTrailStart(keyword: bytes)
    ensures OnTrail(Top, keyword, 0)
  {
    assert keyword[0..] == keyword;
  }

  lemma Concat(p: Path, ch: bytes, rest: Path)
    ensures p + ([ch] + rest) == p + [ch] + rest
  {
  }

  lemma OnTrailStep(trail: Trail, keyword: bytes, offset: nat)
    requires offset <= |keyword| && OnTrail(trail, keyword, offset)
    ensures var n := CharLength(keyword[offset..]);
            if n == 0 then Steps(trail) == Split(keyword)
            else OnTrail(Via(trail, keyword[offset..offset + n]), keyword, offset + n)
  {
    hide CharLength, Split;
    SplitStep(keyword, offset);
    var n := CharLength(keyword[offset..]);
    if n == 0 {
      assert Steps(trail) + [] == Steps(trail);
    } else {
      var ch, rest := keyword[offset..offset + n], Split(keyword[offset + n..]);
      assert Split(keyword[offset..]) == [ch] + rest;
      Concat(Steps(trail), ch, rest);
    }
  }

  class Node {
    ghost const trail: Trail
    var next: map<bytes, Node>
    var value: Option<bytes>

    constructor (ghost trail: Trail)
      ensures this.trail == trail && next == map[] && value == None
    {
      this.trail := trail;
      next, value := map[], None;
    }
  }

  ghost predicate Holds(v: Option<bytes>, values: map<Trail, bytes>, t: Trail) {
    v == if t in values then Some(values[t]) else None
  }

  ghost predicate Has(next: map<bytes, Node>, ch: bytes) { ch in next }

  ghost predicate Leads(next: map<bytes, Node>, ch: bytes, child: Node) { ch in next && next[ch] == child }

  lemma LeadsOne(next: map<bytes, Node>, ch: bytes, child: Node)
    ensures forall c :: Has(next[ch := child], c) <==> c == ch || Has(next, c)
    ensures forall c, n :: c != ch && Leads(next, c, n) ==> Leads(next[ch := child], c, n)
    ensures Leads(next[ch := child], ch, child)
  {
    forall c ensures Has(next[ch := child], c) <==> c == ch || Has(next, c) {
      if c == ch {
      }
    }
  }

  lemma LeadsNothing()
    ensures forall c :: !Has(map[], c)
  {
  }

  lemma HoldsNothing(values: map<Trail, bytes>, t: Trail)
    requires t !in values
    ensures Holds(None, values, t)
  {
  }

  lemma HoldsOne(values: map<Trail, bytes>, t: Trail, k: bytes)
    ensures Holds(Some(k), values[t := k], t)
    ensures forall v, u :: u != t && Holds(v, values, u) ==> Holds(v, values[t := k], u)
  {
  }

  /** The same values, by path. */
  ghost predicate Spelled(values: map<Trail, bytes>, contents: map<Path, bytes>) {
    forall t {:trigger Steps(t)} ::
      && (Steps(t) in contents <==> t in values)
      && (t in values ==> contents[Steps(t)] == values[t] && |values[t]| > 0)
  }

  lemma SpelledOne(values: map<Trail, bytes>, contents: map<Path, bytes>, t: Trail, k: bytes)
    requires Spelled(values, contents) && k != []
    ensures Spelled(values[t := k], contents[Steps(t) := k])
  {
    StepsOnce(t);
  }

  lemma SpelledNothing()
    ensures Spelled(map[], map[])
  {
  }

  class Trie {
    const root: Node
    /** The node at the end of each trail. */
    ghost var at: map<Trail, Node>
    ghost var repr: set<Node>
    ghost var values: map<Trail, bytes>
    /** What the trie stands for: the value at the end of each path. */
    ghost var contents: map<Path, bytes>

    ghost predicate Valid()
      reads this, repr
    {
      Placed() && Linked() && Spelled(values, contents)
    }

    /** Every node knows its trail, so no node is at two. */
    ghost predicate Placed()
      reads this, repr
    {
      && Top in at && at[Top] == root
      && (forall t :: t in at ==> at[t] in repr && at[t].trail == t && Holds(at[t].value, values, t))
      && values.Keys <= at.Keys
    }

    /** The children of a node are the nodes one character further on. */
    ghost predicate Linked()
      requires Placed()
      reads this, repr
    {
      forall t, ch {:trigger Via(t, ch)} ::
        && (Via(t, ch) in at <==> t in at && Has(at[t].next, ch))
        && (Via(t, ch) in at ==> Leads(at[t].next, ch, at[Via(t, ch)]))
    }

    constructor (keywords: seq<bytes>)
      ensures Valid() && fresh(repr) && contents == Index(keywords)
    {
      hide Split, Index, Spelled, Holds, Has, Leads;
      root := new Node(Top);
      new;
      at, repr, values, contents := map[Top := root], {root}, map[], map[];
      IndexNothing();
      SpelledNothing();
      HoldsNothing(map[], Top);
      LeadsNothing();
      for i := 0 to |keywords|
        invariant Valid() && fresh(repr) && contents == Index(keywords[..i])
      {
        IndexStep(keywords, i);
        if |keywords[i]| == 0 {
          continue;
        }
        Insert(keywords[i]);
      }
      assert keywords[..|keywords|] == keywords;
    }

    method Insert(keyword: bytes)
      requires Valid() && keyword != []
      modifies this, repr
      ensures Valid() && fresh(repr - old(repr))
      ensures contents == old(contents)[Split(keyword) := keyword]
    {
      hide CharLength, CodePoint, Valid, Split, OnTrail;
      RootAt();
      var node := root;
      var offset := 0;
      ghost var trail := Top;
      OnTrailStart(keyword);
      while true
        invariant 0 <= offset <= |keyword| && Valid() && fresh(repr - old(repr))
        invariant trail in at && at[trail] == node && node in repr && OnTrail(trail, keyword, offset)
        invariant contents == old(contents)
        decreases |keyword| - offset
      {
        var ok, ch, after := DecodeCharAt(keyword, offset);
        OnTrailStep(trail, keyword, offset);
        if !ok {
          break;
        }
        node := Step(node, ch, trail);
        trail, offset := Via(trail, ch), after;
      }
      SetValue(node, trail, keyword);
    }

    lemma RootAt()
      requires Valid()
      ensures Top in at && at[Top] == root && root in repr
    {
    }

    /** The child for `ch`, added if there was none. */
    method Step(node: Node, ch: bytes, ghost trail: Trail) returns (child: Node)
      requires Valid() && trail in at && at[trail] == node
      modifies this, node
      ensures Valid() && fresh(repr - old(repr))
      ensures Via(trail, ch) in at && at[Via(trail, ch)] == child && child in repr
      ensures contents == old(contents)
    {
      hide Spelled, Holds, Steps;
      assert ch in node.next <==> Via(trail, ch) in at;
      if ch in node.next {
        child := node.next[ch];
      } else {
        child := new Node(Via(trail, ch));
        Link(node, ch, child, trail);
      }
    }

    method Link(node: Node, ch: bytes, child: Node, ghost trail: Trail)
      requires Valid() && trail in at && at[trail] == node && Via(trail, ch) !in at
      requires child !in repr && child.trail == Via(trail, ch) && child.next == map[] && child.value == None
      modifies this`at, this`repr, node`next
      ensures Valid() && repr == old(repr) + {child}
      ensures Via(trail, ch) in at && at[Via(trail, ch)] == child
    {
      hide Steps, Spelled, Holds, Has, Leads;
      HoldsNothing(values, Via(trail, ch));
      LeadsOne(node.next, ch, child);
      LeadsNothing();
      node.next := node.next[ch := child];
      at, repr := at[Via(trail, ch) := child], repr + {child};
      assert Placed();
      forall t, c
        ensures Via(t, c) in at <==> t in at && Has(at[t].next, c)
        ensures Via(t, c) in at ==> Leads(at[t].next, c, at[Via(t, c)])
      {
        if t == trail || t == Via(trail, ch) {
        } else {
        }
      }
    }

    method SetValue(node: Node, ghost trail: Trail, keyword: bytes)
      requires Valid() && trail in at && at[trail] == node && keyword != []
      modifies node, this`values, this`contents
      ensures Valid() && contents == old(contents)[Steps(trail) := keyword]
    {
      hide Steps, Spelled, Holds, Has, Leads;
      HoldsOne(values, trail, keyword);
      SpelledOne(values, contents, trail, keyword);
      node.value := Some(keyword);
      values, contents := values[trail := keyword], contents[Steps(trail) := keyword];
    }

    /** A missing child leaves nothing below it. */
    lemma {:induction false} Closed(p: Path, n: nat)
      requires Valid() && n <= |p| && TrailOf(p[..n]) !in at
      ensures p !in contents && TrailOf(p) !in at
      decreases |p|
    {
      StepsOfTrail(p);
      if n < |p| {
        var front := p[..|p| - 1];
        assert front[..n] == p[..n];
        Closed(front, n);
        assert TrailOf(p) == Via(TrailOf(front), p[|p| - 1]);
      } else {
        assert p[..n] == p;
      }
    }

    lemma NothingFurther(cs: Path, d: nat)
      requires Valid() && d < |cs| && TrailOf(cs[..d + 1]) !in at
      ensures forall i :: d < i <= |cs| ==> cs[..i] !in contents
    {
      hide Valid;
      forall i | d < i <= |cs| ensures cs[..i] !in contents {
        assert cs[..i][..d + 1] == cs[..d + 1];
        Closed(cs[..i], d + 1);
      }
    }

    lemma Descend(cs: Path, d: nat, trail: Trail)
      requires Valid() && d < |cs| && trail in at && trail == TrailOf(cs[..d])
      ensures var t := Via(trail, cs[d]);
              && t == TrailOf(cs[..d + 1])
              && (t in at <==> cs[d] in at[trail].next)
              && (t in at ==> at[trail].next[cs[d]] == at[t])
              && (t in at ==> (cs[..d + 1] in contents <==> at[t].value.Some?))
              && (cs[..d + 1] in contents ==> t in at && at[t].value.value == contents[cs[..d + 1]] != [])
    {
      assert cs[..d + 1][..d] == cs[..d];
      StepsOfTrail(cs[..d + 1]);
    }

    /** The inner loop: down from the root along the characters of text[offset..], `first` first. */
    method Walk(text: bytes, offset: nat, first: bytes, after: nat, noOverlap: bool, found: seq<bytes>)
      returns (longestValue: bytes, longestOffset: nat, result: seq<bytes>)
      requires Valid() && Sorted(found) && offset <= |text| && after <= |text|
      requires Split(text[offset..]) == [first] + Split(text[after..])
      ensures Sorted(result)
      ensures !noOverlap ==>
                longestValue == []
                && var cs := Split(text[offset..]);
                   Elements(result) == Elements(found) + PrefixMatches(contents, cs, |cs|)
      ensures noOverlap ==>
                result == found
                && var cs := Split(text[offset..]);
                   var n := Longest(contents, cs, |cs|);
                   && (longestValue == [] <==> n == 0)
                   && (n > 0 ==> longestValue == contents[cs[..n]] && longestOffset <= |text|
                                 && Split(text[longestOffset..]) == cs[n..])
    {
      hide Split, Valid, Longest, PrefixMatches, Elements, Sorted, Ordered.Insert, TrailOf;
      RootAt();
      var node, ch, nextOffset := root, first, after;
      longestValue, longestOffset, result := [], 0, found;
      ghost var m, cs, d, trail := contents, Split(text[offset..]), 0, Top;
      ghost var n := 0;
      NoneYet(m, cs);
      TrailOfNothing(cs);
      while true
        invariant 0 <= n <= d < |cs| && cs[d] == ch
        invariant trail == TrailOf(cs[..d]) && trail in at && at[trail] == node
        invariant 0 <= nextOffset <= |text| && cs[d + 1..] == Split(text[nextOffset..])
        invariant Sorted(result)
        invariant !noOverlap ==> longestValue == [] && Elements(result) == Elements(found) + PrefixMatches(m, cs, d)
        invariant noOverlap ==> result == found && n == Longest(m, cs, d)
        invariant noOverlap ==> (longestValue == [] <==> n == 0)
        invariant noOverlap && n > 0 ==>
              longestValue == m[cs[..n]] && longestOffset <= |text| && Split(text[longestOffset..]) == cs[n..]
        decreases |cs| - d
      {
        Descend(cs, d, trail);
        if ch !in node.next {
          NothingFurther(cs, d);
          LongestStops(m, cs, d, |cs|);
          MatchesStop(m, cs, d);
          break;
        }
        node, trail := node.next[ch], Via(trail, ch);
        MatchesStep(m, cs, d);
        LongestStep(m, cs, d);
        if node.value.Some? {
          if noOverlap {
            longestValue, longestOffset := node.value.value, nextOffset;
            n := d + 1;
          } else {
            result := Ordered.Insert(result, node.value.value);
          }
        }
        d := d + 1;
        SplitStep(text, nextOffset);
        var ok, c, next := DecodeCharAt(text, nextOffset);
        if !ok {
          assert d == |cs|;
          break;
        }
        assert cs[d..][1..] == cs[d + 1..];
        ch, nextOffset := c, next;
      }
    }

    /** The keywords found, in order. */
    method Search(text: bytes, noOverlap: bool) returns (result: seq<bytes>)
      requires Valid()
      ensures Sorted(result)
      ensures Elements(result)
           == if noOverlap then NonOverlapping(contents, Split(text)) else Overlapping(contents, Split(text))
    {
      hide Valid, Longest, PrefixMatches, Elements, Sorted, Ordered.Insert, CharLength, CodePoint;
      result := [];
      NoElements([]);
      SortedNothing();
      var offset := 0;
      assert text[0..] == text;
      ghost var m := contents;
      while true
        invariant 0 <= offset <= |text| && Sorted(result)
        invariant noOverlap ==>
                    NonOverlapping(m, Split(text)) == Elements(result) + NonOverlapping(m, Split(text[offset..]))
        invariant !noOverlap ==> Overlapping(m, Split(text)) == Elements(result) + Overlapping(m, Split(text[offset..]))
        decreases |Split(text[offset..])|
      {
        SplitStep(text, offset);
        var ok, ch, after := DecodeCharAt(text, offset);
        if !ok {
          break;
        }
        ghost var cs := Split(text[offset..]);
        assert cs[1..] == Split(text[after..]);
        var longestValue, longestOffset;
        longestValue, longestOffset, result := Walk(text, offset, ch, after, noOverlap, result);
        offset := after;
        if |longestValue| > 0 {
          result := Ordered.Insert(result, longestValue);
          offset := longestOffset;
        }
      }
    }
  }

  /** Building the trie and searching: without overlaps, the sorted listing of what the leftmost-longest scan
      takes; with them, of every non-empty keyword that occurs in the text. */
  method FindKeywords(keywords: seq<bytes>, text: bytes, noOverlap: bool) returns (result: seq<bytes>)
    ensures AllDecodable(keywords) && noOverlap ==> IsListing(result, Scan(keywords, text))
    ensures (forall i :: 0 <= i < |keywords| ==> WellFormed(keywords[i])) && WellFormed(text) && !noOverlap ==>
              IsListing(result, set k | k in keywords && k != [] && Occurs(k, text))
  {
    hide Split, Index, Scan, Overlapping, NonOverlapping, IsListing, Elements, Sorted, WellFormed, AllDecodable, Occurs;
    var trie := new Trie(keywords);
    result := trie.Search(text, noOverlap);
    Listed(result);
    if AllDecodable(keywords) && noOverlap {
      NonOverlappingIsScan(keywords, text);
    }
    if (forall i :: 0 <= i < |keywords| ==> WellFormed(keywords[i])) && WellFormed(text) && !noOverlap {
      OverlappingIsNaive(keywords, text);
    }
  }
}
