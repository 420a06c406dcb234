/** SOA frames: a 16-byte id, an 8-byte big-endian length, that many bytes
    (Protocol/Soa.cpp, Protocol/Client/Soa.cpp). */
module SoaProtocol {
  import opened Bytes
  import opened Reader
  import opened Chunking
  import opened Bufferables

  const GUID_SIZE: nat := 16
  const SIZE_T: nat := 8

  datatype SoaPacket = SoaPacket(uuid: bytes, json: bytes)

  /** parse_request and parse_response read the same frame. */
  function ParsePacket(s: bytes): (p: Parse<SoaPacket>)
    ensures p.Ok? ==> |p.rest| < |s|
    ensures !p.Bad? && (s == [] ==> p.Again?)
  {
    var (uuid, s1) :- TakeSize(s, GUID_SIZE);
    var (size, s2) :- TakeSize(s1, SIZE_T);
    var (json, s3) :- TakeSize(s2, FromBigEndian(size));
    Ok(SoaPacket(uuid, json), s3)
  }

  function ToBytes(m: SoaPacket): bytes {
    m.uuid + BigEndian(SIZE_T, |m.json|) + m.json
  }

  ghost predicate Sendable(m: SoaPacket) { |m.uuid| == GUID_SIZE && |m.json| < Pow256(SIZE_T) }

  lemma PacketExtends(s: bytes, t: bytes)
    ensures Extends(ParsePacket(s), t, ParsePacket(s + t))
  {
    TakeSizeExtends(s, t, GUID_SIZE);
    var p1 := TakeSize(s, GUID_SIZE);
    if p1.Ok? {
      TakeSizeExtends(p1.rest, t, SIZE_T);
      var p2 := TakeSize(p1.rest, SIZE_T);
      if p2.Ok? {
        TakeSizeExtends(p2.rest, t, FromBigEndian(p2.value));
      }
    }
  }

  lemma PacketStable()
    ensures Stable(ParsePacket)
  {
    forall s, t ensures Extends(ParsePacket(s), t, ParsePacket(s + t)) {
      PacketExtends(s, t);
    }
  }

  /** A frame in front of anything parses to itself and leaves exactly what follows. */
  lemma PacketRoundTrip(m: SoaPacket, t: bytes)
    requires Sendable(m)
    ensures ParsePacket(ToBytes(m) + t) == Ok(m, t)
  {
    var len := BigEndian(SIZE_T, |m.json|);
    var s := ToBytes(m) + t;
    assert s[..GUID_SIZE] == m.uuid;
    assert s[GUID_SIZE..] == len + m.json + t;
    assert s[GUID_SIZE..][..SIZE_T] == len;
    assert s[GUID_SIZE..][SIZE_T..] == m.json + t;
    BigEndianRoundTrip(SIZE_T, |m.json|);
  }

  /** However the network cuts a stream of frames followed by an incomplete one, the server
      handles exactly those requests, in order, keeps exactly the incomplete tail, and stays open. */
  lemma RequestsDelivered(ms: seq<SoaPacket>, tail: bytes, chunks: seq<bytes>)
    requires forall m :: m in ms ==> Sendable(m)
    requires ParsePacket(tail).Again?
    requires Flatten(chunks) == Encoded(ToBytes, ms) + tail
    ensures Stable(ParsePacket)
    ensures FeedAll(ParsePacket, Never, Fresh(), chunks) == Conn(ms, tail, false)
  {
    PacketStable();
    ChunksAreOne(ParsePacket, Never, chunks);
    forall i, t {:trigger ToBytes(ms[i]) + t} | 0 <= i < |ms| ensures ParsePacket(ToBytes(ms[i]) + t) == Ok(ms[i], t) {
      PacketRoundTrip(ms[i], t);
    }
    DrainEncoded(ParsePacket, Never, ToBytes, ms, tail, []);
    assert [] + Flatten(chunks) == Encoded(ToBytes, ms) + tail;
    assert [] + ms == ms;
  }

  method ParseRequest(s: StreamReader) returns (r: Outcome<SoaPacket>)
    requires s.Valid()
    modifies s
    ensures s.Valid() && Agrees(r, ParsePacket(old(s.Rest())), s.Rest())
  {
    var uuid :- s.ReadSize(GUID_SIZE);
    var size :- s.ReadNumber(SIZE_T);
    var json :- s.ReadSize(size);
    r := Got(SoaPacket(uuid, json));
  }

  /** The server side. The ON_REQUEST events and the decision to close are results. */
  class SoaServer {
    const buffers: Bufferable

    constructor ()
      ensures fresh(buffers) && buffers.buf == map[]
    {
      buffers := new Bufferable();
    }

    /** `at`: which response's write meets a broken pipe, if there are so many. */
    method OnMessage(client: int, message: bytes, at: nat) returns (fired: seq<SoaPacket>, close: bool)
      modifies buffers
      ensures Conn(fired, Saved(buffers.buf, client), close)
           == Turn(ParsePacket, Never, Always, Conn([], old(Saved(buffers.buf, client)), false), message, at)
      ensures buffers.buf - {client} == old(buffers.buf) - {client}
    {
      hide ParsePacket, Drain, Turn, Breaks;
      TurnDrains(ParsePacket, Never, Always, Saved(buffers.buf, client), message, at);
      fired := [];
      var broken := false;
      NothingBreaks(Always<SoaPacket>, at);
      var whole := buffers.AppendBuf(client, message);
      var s := new StreamReader(whole);
      var offset := 0;
      ghost var goal := Drain(ParsePacket, Never, Conn([], whole, false));
      assert whole[0..] == whole;
      while true
        invariant s.Valid() && fresh(s) && s.str == whole && s.offset == offset
        invariant Drain(ParsePacket, Never, Conn(fired, s.Rest(), false)) == goal
        invariant broken == Breaks(Always, fired, at)
        invariant client !in buffers.buf && buffers.buf - {client} == old(buffers.buf) - {client}
        decreases |whole| - offset
      {
        DrainStep(ParsePacket, Never, Conn(fired, s.Rest(), false));
        var r := ParseRequest(s);
        match r {
          case AG =>
            var _ := buffers.NeedBuf(client, if offset > 0 then whole[offset..] else whole, true);
            return fired, broken;
          case NG =>
            assert false; // no frame is malformed
          case Got(m) =>
            offset := s.offset;
            BreaksNext(Always, fired, m, at);
            fired := fired + [m];
            var breaks := |fired| - 1 == at;
            Written(client, breaks);
            broken := broken || breaks;
        }
        if s.End() {
          DrainStep(ParsePacket, Never, Conn(fired, [], false));
          return fired, broken;
        }
      }
    }

    /** After the write of an answer: a broken pipe has closed the client, whose CLOSE callback erases what is saved. */
    method Written(client: int, breaks: bool)
      modifies buffers
      ensures buffers.buf == if breaks then old(buffers.buf) - {client} else old(buffers.buf)
      ensures buffers.buf - {client} == old(buffers.buf) - {client}
    {
      if breaks {
        buffers.EraseBuf(client);
      }
    }

    /** The READ callbacks of one connection, one for each chunk that comes; none after it is closed. What an
        earlier connection under the number left saved comes first. */
    method Serve(client: int, chunks: seq<bytes>, ats: seq<nat>) returns (fired: seq<SoaPacket>, close: bool)
      requires |ats| == |chunks|
      modifies buffers
      ensures Conn(fired, Saved(buffers.buf, client), close)
           == Turns(ParsePacket, Never, Always, Conn([], old(Saved(buffers.buf, client)), false), chunks, ats)
      ensures buffers.buf - {client} == old(buffers.buf) - {client}
    {
      hide ParsePacket, Turn, Turns;
      fired, close := [], false;
      ghost var first := Conn([], Saved(buffers.buf, client), false);
      NoTurn(ParsePacket, Never, Always, first, chunks, ats);
      for i := 0 to |chunks|
        invariant Conn(fired, Saved(buffers.buf, client), close)
               == Turns(ParsePacket, Never, Always, first, chunks[..i], ats[..i])
        invariant buffers.buf - {client} == old(buffers.buf) - {client}
      {
        NextTurn(ParsePacket, Never, Always, first, chunks, ats, i);
        if !close {
          var next;
          next, close := OnMessage(client, chunks[i], ats[i]);
          fired := fired + next;
        }
      }
      assert chunks[..|chunks|] == chunks && ats[..|ats|] == ats;
    }
  }

  // ---- The client side: replies are matched to callbacks by id ----

  /** An application callback, known by a number. */
  type Callback = int

  datatype Delivery = Called(cb: Callback, json: bytes) | Pushed(json: bytes)

  function Deliver(cbs: map<bytes, Callback>, m: SoaPacket): (Delivery, map<bytes, Callback>) {
    if m.uuid in cbs then (Called(cbs[m.uuid], m.json), cbs - {m.uuid}) else (Pushed(m.json), cbs)
  }

  /** Each reply consumes the callback registered for its id; the others go to the push hook. */
  function Dispatch(cbs: map<bytes, Callback>, ms: seq<SoaPacket>): (r: (seq<Delivery>, map<bytes, Callback>))
    ensures |r.0| == |ms|
  {
    if ms == [] then ([], cbs)
    else
      var m := ms[|ms| - 1];
      var (ds, left) := Dispatch(cbs, ms[..|ms| - 1]);
      var (d, left') := Deliver(left, m);
      (ds + [d], left')
  }

  /** Position `i` is the first reply carrying its id. */
  ghost predicate FirstReply(ms: seq<SoaPacket>, i: nat)
    requires i < |ms|
  {
    forall j :: 0 <= j < i ==> ms[j].uuid != ms[i].uuid
  }

  /** A callback is called exactly for the first reply with its id, so at most once, and a
      callback is still registered exactly when no reply with its id has come. */
  lemma {:induction false} RepliesMatched(cbs: map<bytes, Callback>, ms: seq<SoaPacket>)
    ensures var (ds, left) := Dispatch(cbs, ms);
            && (forall i :: 0 <= i < |ms| ==>
                 ds[i] == if ms[i].uuid in cbs && FirstReply(ms, i) then Called(cbs[ms[i].uuid], ms[i].json)
                          else Pushed(ms[i].json))
            && (forall u :: u in left <==> u in cbs && forall j :: 0 <= j < |ms| ==> ms[j].uuid != u)
            && (forall u :: u in left ==> left[u] == cbs[u])
  {
    if ms != [] {
      var front := ms[..|ms| - 1];
      RepliesMatched(cbs, front);
      forall i | 0 <= i < |front| ensures FirstReply(ms, i) == FirstReply(front, i) {
        assert forall j :: 0 <= j < i ==> ms[j] == front[j];
      }
      assert forall j :: 0 <= j < |front| ==> ms[j] == front[j];
    }
  }

  class SoaClient {
    const buffers: Bufferable
    var callbacks: map<int, map<bytes, Callback>>

    constructor ()
      ensures fresh(buffers) && buffers.buf == map[] && callbacks == map[]
    {
      buffers := new Bufferable();
      callbacks := map[];
    }

    function Registered(fd: int): map<bytes, Callback>
      reads this
    {
      if fd in callbacks then callbacks[fd] else map[]
    }

    method AddCallback(id: bytes, fd: int, cb: Callback)
      modifies this
      ensures callbacks == old(callbacks)[fd := old(Registered(fd))[id := cb]]
    {
      if fd !in callbacks {
        callbacks := callbacks[fd := map[id := cb]];
      } else {
        callbacks := callbacks[fd := callbacks[fd][id := cb]];
      }
    }

    method OnClose(client: int)
      modifies this, buffers
      ensures buffers.buf == old(buffers.buf) - {client} && callbacks == old(callbacks) - {client}
    {
      buffers.EraseBuf(client);
      callbacks := callbacks - {client};
    }

    method DeliverReply(client: int, m: SoaPacket) returns (d: Delivery)
      modifies this
      ensures (d, Registered(client)) == Deliver(old(Registered(client)), m)
      ensures callbacks - {client} == old(callbacks) - {client}
    {
      if client !in callbacks || m.uuid !in callbacks[client] {
        d := Pushed(m.json);
      } else {
        d := Called(callbacks[client][m.uuid], m.json);
        callbacks := callbacks[client := callbacks[client] - {m.uuid}];
      }
    }

    method OnMessage(client: int, message: bytes) returns (ghost got: seq<SoaPacket>, fired: seq<Delivery>, close: bool)
      modifies this, buffers
      ensures Conn(got, Saved(buffers.buf, client), close)
           == Feed(ParsePacket, Never, Conn([], old(Saved(buffers.buf, client)), false), message)
      ensures buffers.buf - {client} == old(buffers.buf) - {client}
      ensures (fired, Registered(client)) == Dispatch(old(Registered(client)), got)
      ensures callbacks - {client} == old(callbacks) - {client}
    {
      hide ParsePacket, Drain, Feed, Dispatch, Deliver, Registered;
      FeedDrains(ParsePacket, Never, Saved(buffers.buf, client), message);
      fired, got := [], [];
      DispatchNone(Registered(client));
      var whole := buffers.AppendBuf(client, message);
      var s := new StreamReader(whole);
      var offset := 0;
      ghost var goal := Drain(ParsePacket, Never, Conn([], whole, false));
      assert whole[0..] == whole;
      while true
        invariant s.Valid() && fresh(s) && s.str == whole && s.offset == offset
        invariant Drain(ParsePacket, Never, Conn(got, s.Rest(), false)) == goal
        invariant buffers.buf == old(buffers.buf) - {client}
        invariant (fired, Registered(client)) == Dispatch(old(Registered(client)), got)
        invariant callbacks - {client} == old(callbacks) - {client}
        decreases |whole| - offset
      {
        DrainStep(ParsePacket, Never, Conn(got, s.Rest(), false));
        var r := ParseRequest(s);
        match r {
          case AG =>
            var _ := buffers.NeedBuf(client, if offset > 0 then whole[offset..] else whole, true);
            return got, fired, false;
          case NG =>
            assert false; // no frame is malformed
          case Got(m) =>
            offset := s.offset;
            DispatchNext(old(Registered(client)), got, m);
            got := got + [m];
            var d := DeliverReply(client, m);
            fired := fired + [d];
        }
        if s.End() {
          DrainStep(ParsePacket, Never, Conn(got, [], false));
          return got, fired, false;
        }
      }
    }

    /** The READ callbacks of one connection: over all of them, replies are matched as in one call. */
    method Serve(client: int, chunks: seq<bytes>) returns (ghost got: seq<SoaPacket>, fired: seq<Delivery>, close: bool)
      requires Saved(buffers.buf, client) == []
      modifies this, buffers
      ensures Conn(got, Saved(buffers.buf, client), close) == FeedAll(ParsePacket, Never, Fresh(), chunks)
      ensures (fired, Registered(client)) == Dispatch(old(Registered(client)), got)
      ensures buffers.buf - {client} == old(buffers.buf) - {client} && callbacks - {client} == old(callbacks) - {client}
    {
      hide ParsePacket, Feed, FeedAll, Dispatch;
      got, fired, close := [], [], false;
      FedNothing(ParsePacket, Never, chunks);
      DispatchNone(Registered(client));
      for i := 0 to |chunks|
        invariant Conn(got, Saved(buffers.buf, client), close) == FeedAll(ParsePacket, Never, Fresh(), chunks[..i])
        invariant (fired, Registered(client)) == Dispatch(old(Registered(client)), got)
        invariant buffers.buf - {client} == old(buffers.buf) - {client}
              && callbacks - {client} == old(callbacks) - {client}
      {
        if close {
          ClosedStays(ParsePacket, Never, chunks, i);
        } else {
          NextCall(ParsePacket, Never, chunks, i);
          ghost var more;
          var next;
          more, next, close := OnMessage(client, chunks[i]);
          DispatchTwice(old(Registered(client)), got, more);
          got, fired := got + more, fired + next;
        }
      }
      assert chunks[..|chunks|] == chunks;
    }
  }

  lemma DispatchNext(cbs: map<bytes, Callback>, ms: seq<SoaPacket>, m: SoaPacket)
    ensures var (ds, left) := Dispatch(cbs, ms);
            var (d, left') := Deliver(left, m);
            Dispatch(cbs, ms + [m]) == (ds + [d], left')
  {
    assert (ms + [m])[..|ms|] == ms;
  }

  lemma DispatchNone(cbs: map<bytes, Callback>)
    ensures Dispatch(cbs, []) == ([], cbs)
  {
  }

  lemma {:induction false} DispatchTwice(cbs: map<bytes, Callback>, ms: seq<SoaPacket>, more: seq<SoaPacket>)
    ensures var (ds, left) := Dispatch(cbs, ms);
            var (ds', left') := Dispatch(left, more);
            Dispatch(cbs, ms + more) == (ds + ds', left')
    decreases |more|
  {
    hide Deliver;
    var (ds, left) := Dispatch(cbs, ms);
    if more == [] {
      assert ms + more == ms && ds + [] == ds;
    } else {
      var front, m := more[..|more| - 1], more[|more| - 1];
      DispatchTwice(cbs, ms, front);
      assert (ms + more)[..|ms + more| - 1] == ms + front && (ms + more)[|ms + more| - 1] == m;
      var (d, _) := Deliver(Dispatch(left, front).1, m);
      assert ds + (Dispatch(left, front).0 + [d]) == ds + Dispatch(left, front).0 + [d];
    }
  }
}
