/** Why the way the network cuts a byte stream into chunks does not matter. The argument is
    made once, for any parser of prefixes whose decided results survive more input. */
module Chunking {
  import opened Bytes
  import opened Reader

  /** What the theorems ask of a parser. Each protocol discharges this for its own. */
  ghost predicate Stable<T(!new)>(p: bytes -> Parse<T>) {
    && p([]).Again?
    && (forall s :: p(s).Ok? ==> |p(s).rest| < |s|)
    && (forall s, t {:trigger p(s + t)} :: Extends(p(s), t, p(s + t)))
  }

  /** One connection: the messages handed to the application, the bytes saved for the next
      chunk, and whether the server has closed it. */
  datatype Conn<+T> = Conn(got: seq<T>, buf: bytes, closed: bool)

  function Fresh<T>(): Conn<T> { Conn([], [], false) }

  /** For protocols no message of which closes the connection. */
  predicate Never<T>(m: T) { false }

  /** Parse message after message until the bytes run out, are rejected, or a message
      makes the server close. (A parse that consumes nothing would loop; a stable parser has none.) */
  function Drain<T>(p: bytes -> Parse<T>, stop: T -> bool, c: Conn<T>): Conn<T>
    decreases |c.buf|
  {
    if c.closed then c else
    match p(c.buf)
    case Again => c
    case Bad => Conn(c.got, [], true)
    case Ok(v, r) =>
      if stop(v) then Conn(c.got + [v], [], true)
      else if |r| >= |c.buf| then c
      else Drain(p, stop, Conn(c.got + [v], r, false))
  }

  /** One turn of the parsing loop. */
  lemma DrainStep<T>(p: bytes -> Parse<T>, stop: T -> bool, c: Conn<T>)
    requires !c.closed
    ensures Drain(p, stop, c) ==
            match p(c.buf)
            case Again => c
            case Bad => Conn(c.got, [], true)
            case Ok(v, r) =>
              if stop(v) then Conn(c.got + [v], [], true)
              else if |r| >= |c.buf| then c
              else Drain(p, stop, Conn(c.got + [v], r, false))
  {
  }

  /** on_message: prepend what was saved, then drain. A closed connection gets no events. */
  function Feed<T>(p: bytes -> Parse<T>, stop: T -> bool, c: Conn<T>, chunk: bytes): Conn<T>
  {
    if c.closed then c else Drain(p, stop, c.(buf := c.buf + chunk))
  }

  lemma FeedDrains<T>(p: bytes -> Parse<T>, stop: T -> bool, buf: bytes, chunk: bytes)
    ensures Feed(p, stop, Conn([], buf, false), chunk) == Drain(p, stop, Conn([], buf + chunk, false))
  {
  }

  function FeedAll<T>(p: bytes -> Parse<T>, stop: T -> bool, c: Conn<T>, chunks: seq<bytes>): Conn<T>
  {
    if chunks == [] then c
    else Feed(p, stop, FeedAll(p, stop, c, chunks[..|chunks| - 1]), chunks[|chunks| - 1])
  }

  function Flatten(chunks: seq<bytes>): bytes {
    if chunks == [] then [] else Flatten(chunks[..|chunks| - 1]) + chunks[|chunks| - 1]
  }

  /** Draining before more bytes arrive loses nothing. */
  lemma {:induction false} DrainThenFeed<T(!new)>(p: bytes -> Parse<T>, stop: T -> bool, c: Conn<T>, more: bytes)
    requires Stable(p) && !c.closed
    ensures Feed(p, stop, Drain(p, stop, c), more) == Drain(p, stop, c.(buf := c.buf + more))
    decreases |c.buf|
  {
    var q := p(c.buf);
    assert Extends(q, more, p(c.buf + more));
    if q.Ok? && !stop(q.value) {
      DrainThenFeed(p, stop, Conn(c.got + [q.value], q.rest, false), more);
    }
  }

  /** Any chunks have the effect of their concatenation in one piece. */
  lemma {:induction false} ChunksAreOne<T(!new)>(p: bytes -> Parse<T>, stop: T -> bool, chunks: seq<bytes>)
    requires Stable(p)
    ensures FeedAll(p, stop, Fresh(), chunks) == Feed(p, stop, Fresh(), Flatten(chunks))
  {
    if chunks == [] {
    } else {
      var front, last := chunks[..|chunks| - 1], chunks[|chunks| - 1];
      ChunksAreOne(p, stop, front);
      var whole: Conn<T> := Conn([], Flatten(front), false);
      assert [] + Flatten(front) == Flatten(front);
      assert [] + Flatten(chunks) == whole.buf + last;
      DrainThenFeed(p, stop, whole, last);
    }
  }

  /** Two ways of cutting the same stream: the same messages in the same order, the same
      saved bytes, the same decision to close. */
  lemma ChunkingDoesNotMatter<T(!new)>(p: bytes -> Parse<T>, stop: T -> bool, xs: seq<bytes>, ys: seq<bytes>)
    requires Stable(p) && Flatten(xs) == Flatten(ys)
    ensures FeedAll(p, stop, Fresh(), xs) == FeedAll(p, stop, Fresh(), ys)
  {
    ChunksAreOne(p, stop, xs);
    ChunksAreOne(p, stop, ys);
  }

  /** What has been delivered is never taken back by later chunks. */
  lemma {:induction false} FeedOnlyAdds<T(!new)>(p: bytes -> Parse<T>, stop: T -> bool, c: Conn<T>)
    requires Stable(p)
    ensures c.got <= Drain(p, stop, c).got
    decreases |c.buf|
  {
    var q := p(c.buf);
    if !c.closed && q.Ok? && !stop(q.value) {
      FeedOnlyAdds(p, stop, Conn(c.got + [q.value], q.rest, false));
    }
  }

  // ---- Streams whose messages are printed by an encoder the parser undoes ----

  /** If the parser reads back an encoded message in front of anything, a stream of encoded
      messages is delivered exactly, whatever follows it. */
  lemma {:induction false} DrainEncoded<T(!new)>(p: bytes -> Parse<T>, stop: T -> bool, enc: T -> bytes, ms: seq<T>,
      tail: bytes, got: seq<T>)
    requires Stable(p)
    requires forall i, t {:trigger enc(ms[i]) + t} :: 0 <= i < |ms| ==> p(enc(ms[i]) + t) == Ok(ms[i], t)
    requires forall m :: m in ms ==> !stop(m)
    ensures Drain(p, stop, Conn(got, Encoded(enc, ms) + tail, false)) == Drain(p, stop, Conn(got + ms, tail, false))
  {
    if ms == [] {
      assert [] + tail == tail && got + ms == got;
    } else {
      var rest := Encoded(enc, ms[1..]) + tail;
      assert Encoded(enc, ms) + tail == enc(ms[0]) + rest;
      assert p(enc(ms[0]) + rest) == Ok(ms[0], rest);
      forall i, t | 0 <= i < |ms[1..]| ensures p(enc(ms[1..][i]) + t) == Ok(ms[1..][i], t) {
        assert ms[1..][i] == ms[i + 1];
      }
      assert ms[0] in ms;
      DrainEncoded(p, stop, enc, ms[1..], tail, got + [ms[0]]);
      assert got + [ms[0]] + ms[1..] == got + ms;
    }
  }

  ghost function Encoded<T>(enc: T -> bytes, ms: seq<T>): bytes {
    if ms == [] then [] else enc(ms[0]) + Encoded(enc, ms[1..])
  }

  /** What one call of on_message does does not depend on the messages delivered before it. */
  lemma {:induction false} DrainShift<T(!new)>(p: bytes -> Parse<T>, stop: T -> bool, before: seq<T>, c: Conn<T>)
    requires !c.closed
    ensures Drain(p, stop, c.(got := before + c.got)) ==
            var d := Drain(p, stop, c);
            d.(got := before + d.got)
    decreases |c.buf|
  {
    var q := p(c.buf);
    if q.Ok? {
      assert before + c.got + [q.value] == before + (c.got + [q.value]);
      if !stop(q.value) && |q.rest| < |c.buf| {
        DrainShift(p, stop, before, Conn(c.got + [q.value], q.rest, false));
      }
    }
  }

  /** So what the next call hands over, put after what was handed over before, is what one parser of the whole
      stream hands over. */
  lemma NextCall<T(!new)>(p: bytes -> Parse<T>, stop: T -> bool, chunks: seq<bytes>, i: nat)
    requires i < |chunks| && !FeedAll(p, stop, Fresh(), chunks[..i]).closed
    ensures var c := FeedAll(p, stop, Fresh(), chunks[..i]);
            var d := Feed(p, stop, Conn([], c.buf, false), chunks[i]);
            FeedAll(p, stop, Fresh(), chunks[..i + 1]) == d.(got := c.got + d.got)
  {
    hide Drain;
    var c := FeedAll(p, stop, Fresh(), chunks[..i]);
    assert chunks[..i + 1][..i] == chunks[..i];
    DrainShift(p, stop, c.got, Conn([], c.buf + chunks[i], false));
    assert c.got + [] == c.got;
  }

  lemma FedNothing<T>(p: bytes -> Parse<T>, stop: T -> bool, chunks: seq<bytes>)
    ensures FeedAll(p, stop, Fresh(), chunks[..0]) == Fresh()
  {
  }

  lemma ClosedStays<T>(p: bytes -> Parse<T>, stop: T -> bool, chunks: seq<bytes>, i: nat)
    requires i < |chunks| && FeedAll(p, stop, Fresh(), chunks[..i]).closed
    ensures FeedAll(p, stop, Fresh(), chunks[..i + 1]) == FeedAll(p, stop, Fresh(), chunks[..i])
  {
    assert chunks[..i + 1][..i] == chunks[..i];
  }

  // ---- Servers that answer from within the parsing loop ----

  /** For protocols that answer every message. */
  predicate Always<T>(m: T) { true }

  /** Whether writing the answer to message number `at` of one call meets a broken pipe; only what `writes` holds of
      is answered. */
  predicate Breaks<T>(writes: T -> bool, got: seq<T>, at: nat) { at < |got| && writes(got[at]) }

  lemma BreaksNext<T>(writes: T -> bool, got: seq<T>, m: T, at: nat)
    ensures Breaks(writes, got + [m], at) == (Breaks(writes, got, at) || (|got| == at && writes(m)))
  {
  }

  lemma NothingBreaks<T>(writes: T -> bool, at: nat)
    ensures !Breaks(writes, [], at)
  {
  }

  /** One READ callback. A broken pipe closes the connection from within, and clears what is saved for it; the loop
      goes on all the same, and may save a tail after that. */
  function Turn<T>(p: bytes -> Parse<T>, stop: T -> bool, writes: T -> bool, c: Conn<T>, chunk: bytes,
      at: nat): Conn<T>
  {
    if c.closed then c
    else
      var d := Feed(p, stop, Conn([], c.buf, false), chunk);
      Conn(c.got + d.got, d.buf, d.closed || Breaks(writes, d.got, at))
  }

  function Turns<T>(p: bytes -> Parse<T>, stop: T -> bool, writes: T -> bool, c: Conn<T>, chunks: seq<bytes>,
      ats: seq<nat>): Conn<T>
    requires |ats| == |chunks|
  {
    if chunks == [] then c
    else
      var n := |chunks| - 1;
      Turn(p, stop, writes, Turns(p, stop, writes, c, chunks[..n], ats[..n]), chunks[n], ats[n])
  }

  /** The chunks that reach a READ callback before the connection is closed. */
  function Taken<T>(p: bytes -> Parse<T>, stop: T -> bool, writes: T -> bool, c: Conn<T>, chunks: seq<bytes>,
      ats: seq<nat>): (n: nat)
    requires |ats| == |chunks|
    ensures n <= |chunks|
  {
    if chunks == [] then 0
    else
      var n := |chunks| - 1;
      if Turns(p, stop, writes, c, chunks[..n], ats[..n]).closed then Taken(p, stop, writes, c, chunks[..n], ats[..n])
      else |chunks|
  }

  /** In the last of these callbacks, and in none before, an answer met a broken pipe. */
  predicate BrokeOff<T>(p: bytes -> Parse<T>, stop: T -> bool, writes: T -> bool, c: Conn<T>, chunks: seq<bytes>,
      ats: seq<nat>)
    requires |ats| == |chunks|
  {
    chunks != [] &&
    var n := |chunks| - 1;
    var before := Turns(p, stop, writes, c, chunks[..n], ats[..n]);
    if before.closed then BrokeOff(p, stop, writes, c, chunks[..n], ats[..n])
    else Breaks(writes, Feed(p, stop, Conn([], before.buf, false), chunks[n]).got, ats[n])
  }

  /** The callbacks of one connection deliver, and leave saved, what one parser of the chunks they took would; and
      the connection is closed if that parser closes it or an answer met a broken pipe. So bytes stay saved for a
      closed connection, in front of the next one under its number, exactly when an answer met a broken pipe, what
      had come did not close the connection by itself, and it ended in an incomplete message. */
  lemma {:induction false} TailStays<T(!new)>(p: bytes -> Parse<T>, stop: T -> bool, writes: T -> bool, c: Conn<T>,
      chunks: seq<bytes>, ats: seq<nat>)
    requires |ats| == |chunks| && !c.closed
    ensures var t := Turns(p, stop, writes, c, chunks, ats);
            var d := FeedAll(p, stop, c, chunks[..Taken(p, stop, writes, c, chunks, ats)]);
            var broke := BrokeOff(p, stop, writes, c, chunks, ats);
            && t == Conn(d.got, d.buf, d.closed || broke)
            && (!t.closed ==> Taken(p, stop, writes, c, chunks, ats) == |chunks|)
            && (t.closed && t.buf != [] <==> broke && !d.closed && d.buf != [])
    decreases |chunks|
  {
    hide Drain, Breaks;
    if chunks != [] {
      var n := |chunks| - 1;
      TailStays(p, stop, writes, c, chunks[..n], ats[..n]);
      var before := Turns(p, stop, writes, c, chunks[..n], ats[..n]);
      var k := Taken(p, stop, writes, c, chunks[..n], ats[..n]);
      assert chunks[..n][..k] == chunks[..k];
      if !before.closed {
        assert chunks[..|chunks|] == chunks && k == n;
        DrainShift(p, stop, before.got, Conn([], before.buf + chunks[n], false));
        assert before.got + [] == before.got;
        DrainClosed(p, stop, Conn([], before.buf + chunks[n], false));
      }
    } else {
      assert chunks[..0] == chunks;
    }
  }

  lemma {:induction false} DrainClosed<T>(p: bytes -> Parse<T>, stop: T -> bool, c: Conn<T>)
    requires !c.closed
    ensures Drain(p, stop, c).closed ==> Drain(p, stop, c).buf == []
    decreases |c.buf|
  {
    var q := p(c.buf);
    if q.Ok? && !stop(q.value) && |q.rest| < |c.buf| {
      DrainClosed(p, stop, Conn(c.got + [q.value], q.rest, false));
    }
  }

  lemma TurnDrains<T>(p: bytes -> Parse<T>, stop: T -> bool, writes: T -> bool, buf: bytes, chunk: bytes, at: nat)
    ensures var d := Drain(p, stop, Conn([], buf + chunk, false));
            Turn(p, stop, writes, Conn([], buf, false), chunk, at)
                == Conn(d.got, d.buf, d.closed || Breaks(writes, d.got, at))
  {
    hide Drain;
    var d := Drain(p, stop, Conn([], buf + chunk, false));
    assert [] + d.got == d.got;
  }

  lemma NextTurn<T>(p: bytes -> Parse<T>, stop: T -> bool, writes: T -> bool, c: Conn<T>, chunks: seq<bytes>,
      ats: seq<nat>, i: nat)
    requires |ats| == |chunks| && i < |chunks|
    ensures var t := Turns(p, stop, writes, c, chunks[..i], ats[..i]);
            var d := Turn(p, stop, writes, Conn([], t.buf, false), chunks[i], ats[i]);
            Turns(p, stop, writes, c, chunks[..i + 1], ats[..i + 1])
            == if t.closed then t else Conn(t.got + d.got, d.buf, d.closed)
  {
    hide Feed, Breaks;
    assert chunks[..i + 1][..i] == chunks[..i] && ats[..i + 1][..i] == ats[..i];
    var t := Turns(p, stop, writes, c, chunks[..i], ats[..i]);
    var d := Feed(p, stop, Conn([], t.buf, false), chunks[i]);
    assert [] + d.got == d.got;
  }

  lemma NoTurn<T>(p: bytes -> Parse<T>, stop: T -> bool, writes: T -> bool, c: Conn<T>, chunks: seq<bytes>,
      ats: seq<nat>)
    requires |ats| == |chunks|
    ensures Turns(p, stop, writes, c, chunks[..0], ats[..0]) == c
  {
  }

  function Lookup<K, T>(m: map<K, seq<T>>, k: K): seq<T> {
    if k in m then m[k] else []
  }
}
