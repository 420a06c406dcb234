/** The gateway: one upstream connection per request, one request at a time per client
    (HttpGateway.cpp), as a machine whose steps are the callbacks. */
module Gateways {
  import opened Bytes
  import opened Reader
  import opened Bufferables
  import opened HttpProtocol
  import HttpProxy
  import opened GatewayResponses
  import C = Chunking

  datatype Phase = ParsingRequest | ParsingResponse

  datatype Role = Client | Dialing(client: int) | Linked(client: int)

  /** What ON_RESPONSE is told and the client is sent: the request on record, the response, the number of
      the request the upstream connection was opened for, what that upstream was sent, and all it said. */
  datatype Answer = Answer(request: Request, response: HttpProxy.Response, index: nat, asked: seq<Request>,
      heard: bytes)

  /** A client connection: bytes received, requests taken from them, answers sent. */
  datatype Life = Life(rcvd: bytes, taken: seq<Request>, answers: seq<Answer>)

  /** An upstream connection. */
  datatype Upstream = Upstream(index: nat, asked: seq<Request>, heard: bytes)

  datatype Tables = Tables(
    state: map<int, Phase>, buf: map<int, bytes>, c2r: map<int, int>, r2c: map<int, int>, forward: map<int, Request>)

  /** `halted`: an exception nothing catches has ended the program. */
  datatype State = State(
    fds: map<int, Role>, closing: seq<int>, opens: set<int>, tab: Tables, lives: map<int, Life>, ups: map<int,
        Upstream>,
    halted: bool)

  const NoTables := Tables(map[], map[], map[], map[], map[])

  const Start := State(map[], [], {}, NoTables, map[], map[], false)

  const NoRequest := Request([], [], [], map[], [])

  function LifeOf(s: State, c: int): Life {
    if c in s.lives then s.lives[c] else Life([], [], [])
  }

  function UpstreamOf(s: State, r: int): Upstream {
    if r in s.ups then s.ups[r] else Upstream(0, [], [])
  }

  /** _forward_info[client].first; operator[] makes an empty one. */
  function ForwardOf(s: State, c: int): Request {
    if c in s.tab.forward then s.tab.forward[c] else NoRequest
  }

  function PhaseOf(s: State, c: int): Phase {
    if c in s.tab.state then s.tab.state[c] else ParsingRequest
  }

  // ---- close(), and the callbacks it calls ----

  function Erased(s: State, fd: int): State { s.(tab := s.tab.(buf := s.tab.buf - {fd})) }

  function Queue(s: State, fd: int): State { s.(closing := s.closing + [fd]) }

  /** Unwatched and queued for closing. */
  function Let(s: State, fd: int): State { s.(fds := s.fds - {fd}, closing := s.closing + [fd]) }

  lemma Fewer(fds: map<int, Role>, fd: int)
    requires fd in fds
    ensures |fds - {fd}| < |fds|
  {
    assert fds.Keys == (fds - {fd}).Keys + {fd};
  }

  function Close(s: State, fd: int): (r: State)
    ensures |r.fds| <= |s.fds| && r.halted == s.halted
    decreases |s.fds|, 0
  {
    if fd !in s.fds then s
    else
      Fewer(s.fds, fd);
      match s.fds[fd]
      case Client => OnClose(Let(s, fd), fd)
      case Linked(client) => OnRemoteClose(Let(s, fd), fd, client)
      case Dialing(client) =>
        // the CONNECT callback is told GAME_OVER before the descriptor is queued
        Queue(DialFailed(s.(fds := s.fds - {fd}), fd, client), fd)
  }

  /** on_remote_connect told of a failure, then its wrapper's close(remote, true). */
  function DialFailed(s: State, remote: int, client: int): (r: State)
    ensures |r.fds| <= |s.fds| && r.halted == s.halted
    decreases |s.fds|, 1
  {
    Queue(Close(s, client), remote)
  }

  /** What on_close clears before it closes the remote on record. */
  function Cleared(s: State, client: int): State {
    var tab := s.tab.(buf := s.tab.buf - {client}, state := s.tab.state - {client});
    s.(tab := if client in tab.c2r
              then tab.(c2r := tab.c2r - {client}, buf := tab.buf - {tab.c2r[client]},
                  r2c := tab.r2c - {tab.c2r[client]})
              else tab)
  }

  function OnClose(s: State, client: int): (r: State)
    ensures |r.fds| <= |s.fds| && r.halted == s.halted
    decreases |s.fds|, 1
  {
    if client in s.tab.c2r then Close(Cleared(s, client), s.tab.c2r[client]) else Cleared(s, client)
  }

  function OnRemoteClose(s: State, remote: int, client: int): (r: State)
    ensures |r.fds| <= |s.fds| && r.halted == s.halted
    decreases |s.fds|, 1
  {
    var s1 := if remote in s.tab.r2c then Close(s, client) else s;
    s1.(tab := s1.tab.(buf := s1.tab.buf - {remote}, forward := s1.tab.forward - {client}))
  }

  function Forgotten(s: State, remote: int): State {
    s.(tab := s.tab.(buf := s.tab.buf - {remote}, r2c := s.tab.r2c - {remote}))
  }

  function CloseRemote(s: State, remote: int): State { Close(Forgotten(s, remote), remote) }

  // ---- The callbacks ----

  datatype How = Fails | Later

  /** What becomes of a request: whether ON_REQUEST_URI finds a target, and how connecting to it goes. */
  datatype Fate = Fate(ok: bool, how: How, remote: int)

  function Take(s: State, client: int, request: Request, rest: bytes): State {
    var l := LifeOf(s, client);
    s.(tab := s.tab.(buf := s.tab.buf[client := rest], state := s.tab.state[client := ParsingResponse]),
       lives := s.lives[client := l.(taken := l.taken + [request])])
  }

  function Dial(s: State, client: int, request: Request, remote: int, index: nat): State {
    s.(fds := s.fds[remote := Dialing(client)], opens := s.opens + {remote},
       ups := s.ups[remote := Upstream(index, [], [])],
       tab := s.tab.(forward := s.tab.forward[client := request],
                     c2r := s.tab.c2r[client := remote], r2c := s.tab.r2c[remote := client]))
  }

  function Parsed(s: State, client: int, whole: bytes, fate: Fate): State {
    match ParseRequest(whole)
    case Again => s.(tab := s.tab.(buf := s.tab.buf[client := whole]))
    case Bad => Close(s, client)
    case Ok(request, rest) =>
      var s1 := Take(s, client, request, rest);
      if !fate.ok then Close(s1, client)
      else if fate.how == Fails || fate.remote in s.opens then
        // a connect that fails is reported before connect() returns; the kernel hands out no open number
        Close(s1.(tab := s1.tab.(forward := s1.tab.forward[client := request])), client)
      else Dial(s1, client, request, fate.remote, |LifeOf(s, client).taken|)
  }

  function OnMessage(s: State, client: int, message: bytes, fate: Fate): State {
    var whole := Saved(s.tab.buf, client) + message;
    var s1 := Erased(s, client);
    if PhaseOf(s, client) == ParsingResponse then s1.(tab := s1.tab.(buf := s1.tab.buf[client := whole]))
    else Parsed(s1, client, whole, fate)
  }

  function OnRemoteConnect(s: State, remote: int, client: int): State {
    var u := UpstreamOf(s, remote);
    s.(fds := s.fds[remote := Linked(client)], ups := s.ups[remote := u.(asked := u.asked + [ForwardOf(s, client)])])
  }

  function Answered(s: State, client: int, a: Answer): State {
    var l := LifeOf(s, client);
    s.(lives := s.lives[client := l.(answers := l.answers + [a])])
  }

  /** After an answer: the next buffered request, if any. */
  function Next(s: State, client: int, fate: Fate): State {
    var s1 := s.(tab := s.tab.(state := s.tab.state[client := ParsingRequest]));
    if client in s.tab.buf then OnMessage(Erased(s1, client), client, s.tab.buf[client], fate) else s1
  }

  function Hear(s: State, remote: int, message: bytes): State {
    var u := UpstreamOf(s, remote);
    Erased(s, remote).(ups := s.ups[remote := u.(heard := u.heard + message)])
  }

  /** The process is gone, and every descriptor with it. */
  function Halt(s: State): State { s.(fds := map[], closing := [], opens := {}, tab := NoTables, halted := true) }

  /** `broken`: writing the answer to the client meets a broken pipe, and closes the client there and then. */
  function OnRemoteMessage(s: State, remote: int, client: int, message: bytes, broken: bool, fate: Fate): State {
    var whole := Saved(s.tab.buf, remote) + message;
    var u := UpstreamOf(s, remote);
    var s1 := Hear(s, remote, message);
    match ParseUpstream(whole)
    case Again => s1.(tab := s1.tab.(buf := s1.tab.buf[remote := whole]))
    case Bad => Close(s1, remote)
    case Ok(response, _) =>
      var s2 := Answered(s1, client, Answer(ForwardOf(s1, client), response, u.index, u.asked, u.heard + message));
      var s3 := if broken then Close(s2, client) else s2;
      // the request on record is looked up again
      var request := ForwardOf(s3, client);
      if Throws(request) then Halt(s3)
      else if LastRequest(request) then Close(s3, client)
      else Next(CloseRemote(s3, remote), client, fate)
  }

  // ---- Events ----

  datatype Event =
    | Accept(client: int)
    | Data(client: int, message: bytes, fate: Fate)
    | Dialed(remote: int, ok: bool)
    | UpstreamData(remote: int, message: bytes, broken: bool, fate: Fate)
    | Hangup(fd: int)
    | BatchEnd

  predicate Enabled(s: State, e: Event) {
    match e
    case Accept(c) => c !in s.opens
    case Data(c, _, _) => c in s.fds && s.fds[c].Client?
    case Dialed(r, _) => r in s.fds && s.fds[r].Dialing?
    case UpstreamData(r, _, _, _) => r in s.fds && s.fds[r].Linked?
    case Hangup(fd) => fd in s.fds && !s.fds[fd].Dialing?
    case BatchEnd => true
  }

  function Accepted(s: State, c: int): State {
    s.(fds := s.fds[c := Client], opens := s.opens + {c}, lives := s.lives[c := Life([], [], [])],
       tab := s.tab.(state := s.tab.state[c := ParsingRequest]))
  }

  function Received(s: State, c: int, message: bytes): State {
    var l := LifeOf(s, c);
    s.(lives := s.lives[c := l.(rcvd := l.rcvd + message)])
  }

  function Step(s: State, e: Event): State {
    if s.halted || !Enabled(s, e) then s
    else match e
      case Accept(c) => Accepted(s, c)
      case Data(c, message, fate) => OnMessage(Received(s, c, message), c, message, fate)
      case Dialed(r, ok) =>
        if ok then OnRemoteConnect(s, r, s.fds[r].client) else DialFailed(s.(fds := s.fds - {r}), r, s.fds[r].client)
      case UpstreamData(r, message, broken, fate) => OnRemoteMessage(s, r, s.fds[r].client, message, broken, fate)
      case Hangup(fd) => Close(s, fd)
      case BatchEnd => s.(opens := s.opens - (set fd | fd in s.closing), closing := [])
  }

  function Run(events: seq<Event>): State {
    if events == [] then Start else Step(Run(events[..|events| - 1]), events[|events| - 1])
  }

  // ---- A client's requests are the successive parses of its stream ----

  /** The first `n` requests of `t` (fewer if it has fewer), and what follows them. */
  function Requests(t: bytes, n: nat): (seq<Request>, bytes) {
    if n == 0 then ([], t)
    else
      var (rs, rest) := Requests(t, n - 1);
      match ParseRequest(rest)
      case Ok(r, rest') => (rs + [r], rest')
      case _ => (rs, rest)
  }

  lemma {:induction false} RequestsExtend(t: bytes, more: bytes, n: nat)
    requires |Requests(t, n).0| == n
    ensures Requests(t + more, n) == (Requests(t, n).0, Requests(t, n).1 + more)
  {
    hide ParseRequest;
    if n > 0 {
      RequestsCount(t, n - 1);
      RequestsExtend(t, more, n - 1);
      RequestExtends(Requests(t, n - 1).1, more);
    }
  }

  lemma {:induction false} RequestsCount(t: bytes, n: nat)
    ensures |Requests(t, n).0| <= n
  {
    hide ParseRequest;
    if n > 0 {
      RequestsCount(t, n - 1);
    }
  }

  /** They are what a server reading the same stream in any chunks would get first. */
  lemma {:induction false} RequestsAreDrained(t: bytes, n: nat)
    requires |Requests(t, n).0| == n
    ensures var (rs, rest) := Requests(t, n);
            && C.Drain(ParseRequest, C.Never, C.Conn([], t, false))
               == C.Drain(ParseRequest, C.Never, C.Conn(rs, rest, false))
            && rs <= C.Drain(ParseRequest, C.Never, C.Conn([], t, false)).got
  {
    hide ParseRequest, C.Drain;
    RequestStable();
    var (rs, rest) := Requests(t, n);
    if n > 0 {
      RequestsCount(t, n - 1);
      RequestsAreDrained(t, n - 1);
      var (rs0, rest0) := Requests(t, n - 1);
      C.DrainStep(ParseRequest, C.Never, C.Conn(rs0, rest0, false));
    }
    C.FeedOnlyAdds(ParseRequest, C.Never, C.Conn(rs, rest, false));
  }

  // ---- What holds in every reachable state ----

  /** The i-th answer answers the i-th request, which alone the upstream it came from had been sent. */
  predicate AnswerOk(l: Life, i: nat)
    requires i < |l.answers| && i < |l.taken|
  {
    var a := l.answers[i];
    && a.request == l.taken[i] && a.index == i && a.asked == [l.taken[i]]
    && ParseUpstream(a.heard).Ok? && a.response == ParseUpstream(a.heard).value
  }

  ghost predicate LifeOk(l: Life, phase: Phase, buffered: bytes) {
    && Requests(l.rcvd, |l.taken|) == (l.taken, buffered)
    && |l.taken| == |l.answers| + (if phase == ParsingResponse then 1 else 0)
    && forall i :: 0 <= i < |l.answers| ==> AnswerOk(l, i)
  }

  /** And while no answer is awaited, no complete request is waiting either. */
  ghost predicate ServedOk(l: Life, phase: Phase, buffered: bytes) {
    LifeOk(l, phase, buffered) && (phase == ParsingRequest ==> ParseRequest(buffered).Again?)
  }

  lemma Served(l: Life, phase: Phase, buffered: bytes)
    requires LifeOk(l, phase, buffered) && (phase == ParsingRequest ==> ParseRequest(buffered).Again?)
    ensures ServedOk(l, phase, buffered)
  {
  }

  predicate RemoteOk(s: State, r: int, c: int, linked: bool) {
    && c in s.fds && s.fds[c] == Client && PhaseOf(s, c) == ParsingResponse
    && c in s.tab.c2r && s.tab.c2r[c] == r && r in s.tab.r2c && s.tab.r2c[r] == c
    && |LifeOf(s, c).taken| > 0 && UpstreamOf(s, r).index == |LifeOf(s, c).taken| - 1
    && c in s.tab.forward && s.tab.forward[c] == LifeOf(s, c).taken[UpstreamOf(s, r).index]
    && UpstreamOf(s, r).asked == (if linked then [s.tab.forward[c]] else [])
    && (!linked ==> UpstreamOf(s, r).heard == []) && Saved(s.tab.buf, r) == UpstreamOf(s, r).heard
  }

  ghost predicate FdOk(s: State, fd: int)
    requires fd in s.fds
  {
    match s.fds[fd]
    case Client => ServedOk(LifeOf(s, fd), PhaseOf(s, fd), Saved(s.tab.buf, fd))
    case Dialing(c) => RemoteOk(s, fd, c, false)
    case Linked(c) => RemoteOk(s, fd, c, true)
  }

  predicate IsRemoteOf(s: State, r: int, c: int) { r in s.fds && (s.fds[r] == Dialing(c) || s.fds[r] == Linked(c)) }

  /** Everything is in order but, perhaps, for `x`, which is about to be closed. */
  ghost predicate InvBut(s: State, x: int) {
    && (forall fd :: fd in s.fds && fd != x ==> FdOk(s, fd))
    && (forall fd :: fd in s.fds ==> fd in s.opens && fd !in s.closing)
    && (forall fd :: fd in s.closing ==> fd in s.opens)
    && (forall fd :: fd in s.tab.buf ==> fd in s.fds && !s.fds[fd].Dialing?)
    && (forall r :: r in s.tab.r2c ==> IsRemoteOf(s, r, s.tab.r2c[r]) && s.tab.r2c[r] in s.fds)
    && (forall c :: IsRemoteOf(s, x, c) && c in s.fds ==> s.fds[c] == Client && c in s.tab.c2r && s.tab.c2r[c] == x)
    && (forall c :: c in s.tab.c2r ==> c in s.fds && s.fds[c] == Client && s.tab.c2r[c] != c)
  }

  ghost predicate Inv(s: State) { InvBut(s, -1) && forall fd :: fd in s.fds ==> FdOk(s, fd) }

  // ---- Closing anything keeps the rest in order ----

  /** The parts of a state that matter to the watched descriptors left in it. */
  ghost predicate Less(s: State, s': State, gone: set<int>, unsaid: int) {
    && s'.fds == s.fds - gone
    && s'.lives == s.lives && s'.ups == s.ups && s'.opens == s.opens
    && (forall fd :: fd in s'.closing ==> fd in s.closing || fd in gone)
    && (forall c :: c !in gone ==> PhaseOf(s', c) == PhaseOf(s, c))
    && (forall c :: c !in gone && c in s.tab.c2r ==> c in s'.tab.c2r)
    && (forall c :: c in s'.tab.c2r ==> c !in gone && c in s.tab.c2r && s'.tab.c2r[c] == s.tab.c2r[c])
    && (forall fd :: fd in s'.tab.buf ==> fd in s.tab.buf && fd !in gone)
    && (forall fd :: fd !in gone && fd != unsaid ==> Saved(s'.tab.buf, fd) == Saved(s.tab.buf, fd))
    && (forall r :: r in s'.tab.r2c ==> r in s.tab.r2c && s'.tab.r2c[r] == s.tab.r2c[r])
    && (forall r :: r in s.tab.r2c && r !in gone && r != unsaid ==> r in s'.tab.r2c)
    && (forall c :: c in s.tab.forward && c !in gone ==> c in s'.tab.forward && s'.tab.forward[c] == s.tab.forward[c])
  }

  /** The client of a remote left behind is left behind too. */
  ghost predicate ClosedUnder(s: State, gone: set<int>, unsaid: int) {
    forall r, c :: IsRemoteOf(s, r, c) && c in gone ==> r in gone || r == unsaid
  }

  lemma LessFd(s: State, s': State, gone: set<int>, unsaid: int, fd: int)
    requires Less(s, s', gone, unsaid) && ClosedUnder(s, gone, unsaid)
    requires fd in s'.fds && fd != unsaid && FdOk(s, fd)
    ensures FdOk(s', fd)
  {
    hide ServedOk, LifeOk;
    assert forall c :: IsRemoteOf(s, fd, c) ==> c !in gone;
  }

  lemma LessKeeps(s: State, s': State, x: int, gone: set<int>, unsaid: int)
    requires InvBut(s, x) && Less(s, s', gone, unsaid) && ClosedUnder(s, gone, unsaid)
    requires (x in gone || x !in s.fds || x == unsaid) && unsaid !in s'.tab.r2c && unsaid !in s'.tab.buf
    requires (forall r :: r in s'.tab.r2c ==> r !in gone) && (forall fd :: fd in gone ==> fd in s.fds)
    ensures InvBut(s', unsaid)
  {
    hide ServedOk, LifeOk, FdOk;
    RemotesPaired(s, x);
    forall fd | fd in s'.fds && fd != unsaid ensures FdOk(s', fd) {
      assert FdOk(s, fd);
      LessFd(s, s', gone, unsaid, fd);
    }
    forall c | IsRemoteOf(s', unsaid, c) && c in s'.fds
      ensures s'.fds[c] == Client && c in s'.tab.c2r && s'.tab.c2r[c] == unsaid
    {
      assert IsRemoteOf(s, unsaid, c);
    }
    forall r | r in s'.tab.r2c ensures IsRemoteOf(s', r, s'.tab.r2c[r]) && s'.tab.r2c[r] in s'.fds {
      assert IsRemoteOf(s, r, s.tab.r2c[r]);
    }
  }

  lemma NothingLeft(s: State, x: int)
    requires InvBut(s, x) && x !in s.fds
    ensures Inv(s)
  {
    hide ServedOk, LifeOk;
    forall c | IsRemoteOf(s, -1, c) && c in s.fds ensures s.fds[c] == Client && c in s.tab.c2r && s.tab.c2r[c] == -1 {
      assert FdOk(s, -1);
    }
  }

  lemma ClientCleared(s: State, q: int)
    requires InvBut(s, q) && q in s.fds && s.fds[q] == Client
    ensures InvBut(Cleared(Let(s, q), q), if q in s.tab.c2r then s.tab.c2r[q] else q)
  {
    hide ServedOk, LifeOk;
    var s' := Cleared(Let(s, q), q);
    var unsaid := if q in s.tab.c2r then s.tab.c2r[q] else q;
    forall r, c | IsRemoteOf(s, r, c) && c in {q} ensures r in {q} || r == unsaid {
      assert FdOk(s, r);
    }
    NotInTable(s, q, q);
    LessKeeps(s, s', q, {q}, unsaid);
  }

  /** A client is no key of _r2c. */
  lemma NotInTable(s: State, x: int, q: int)
    requires InvBut(s, x) && q in s.fds && s.fds[q] == Client
    ensures q !in s.tab.r2c
  {
    assert q in s.tab.r2c ==> IsRemoteOf(s, q, s.tab.r2c[q]);
  }

  /** A state without a pair: closed in this order, the pair's entries gone, with or without its request. */
  function WithoutPair(s: State, queued: seq<int>, q: int, c: int, forget: bool): State {
    State(s.fds - {q} - {c}, s.closing + queued, s.opens,
          Tables(s.tab.state - {c}, s.tab.buf - {c} - {q}, s.tab.c2r - {c}, s.tab.r2c - {q},
                 if forget then s.tab.forward - {c} else s.tab.forward),
          s.lives, s.ups, s.halted)
  }

  /** A paired client whose remote is already unwatched closes alone. */
  lemma PairedClientCloses(s: State, c: int, q: int)
    requires c in s.fds && s.fds[c] == Client && c in s.tab.c2r && s.tab.c2r[c] == q && q !in s.fds
    ensures Close(s, c) == WithoutPair(s, [c], q, c, false)
  {
    var s1 := Cleared(Let(s, c), c);
    assert Close(s1, q) == s1;
    assert s.fds - {q} - {c} == s.fds - {c};
  }

  lemma LinkedStep(s: State, q: int, c: int)
    requires q in s.fds && s.fds[q] == Linked(c)
    ensures Close(s, q) == OnRemoteClose(Let(s, q), q, c)
  {
    hide OnRemoteClose;
  }

  lemma DialingStep(s: State, q: int, c: int)
    requires q in s.fds && s.fds[q] == Dialing(c)
    ensures Close(s, q) == Queue(DialFailed(s.(fds := s.fds - {q}), q, c), q)
  {
    hide DialFailed;
  }

  lemma RecordedRemoteStep(s: State, q: int, c: int)
    requires q in s.fds && s.fds[q] == Linked(c) && q in s.tab.r2c && c != q
    requires c in s.fds && s.fds[c] == Client && c in s.tab.c2r && s.tab.c2r[c] == q
    ensures Close(s, q) == WithoutPair(s, [q] + [c], q, c, true)
  {
    hide Close;
    LinkedStep(s, q, c);
    PairedClientCloses(Let(s, q), c, q);
    assert s.fds - {q} - {q} == s.fds - {q};
    assert s.closing + [q] + [c] == s.closing + ([q] + [c]);
    assert s.tab.buf - {c} - {q} - {q} == s.tab.buf - {c} - {q};
  }

  lemma DialFailedStep(s: State, q: int, c: int)
    requires q !in s.fds && c in s.fds && s.fds[c] == Client && c in s.tab.c2r && s.tab.c2r[c] == q
    ensures DialFailed(s, q, c) == WithoutPair(s, [c] + [q], q, c, false)
  {
    hide Close;
    PairedClientCloses(s, c, q);
    assert s.closing + [c] + [q] == s.closing + ([c] + [q]);
  }

  lemma PairGone(s: State, queued: seq<int>, q: int, c: int, forget: bool)
    requires InvBut(s, q) && IsRemoteOf(s, q, c) && c in s.fds
    requires forall fd :: fd in queued ==> fd == q || fd == c
    ensures Inv(WithoutPair(s, queued, q, c, forget))
  {
    hide ServedOk, LifeOk, FdOk;
    var s' := WithoutPair(s, queued, q, c, forget);
    OnlyRemote(s, q, c);
    NotInTable(s, q, c);
    assert s'.fds == s.fds - {q, c};
    LessKeeps(s, s', q, {q, c}, q);
    NothingLeft(s', q);
  }

  lemma RemotesPaired(s: State, x: int)
    requires InvBut(s, x)
    ensures forall r, k :: IsRemoteOf(s, r, k) && r != x ==>
          k in s.fds && s.fds[k] == Client && k in s.tab.c2r && s.tab.c2r[k] == r
  {
    hide ServedOk, LifeOk;
    forall r, k | IsRemoteOf(s, r, k) && r != x
      ensures k in s.fds && s.fds[k] == Client && k in s.tab.c2r && s.tab.c2r[k] == r
    {
      assert FdOk(s, r);
    }
  }

  /** A client has no remote but the one on record for it. */
  lemma OnlyRemote(s: State, q: int, c: int)
    requires InvBut(s, q) && IsRemoteOf(s, q, c) && c in s.fds
    ensures s.fds[c] == Client && c in s.tab.c2r && s.tab.c2r[c] == q && c != q
    ensures ClosedUnder(s, {q, c}, q)
    ensures forall r :: IsRemoteOf(s, r, c) ==> r == q
  {
    hide ServedOk, LifeOk;
    RemotesPaired(s, q);
  }

  /** A remote that is no longer on record. */
  lemma LoneRemoteGone(s: State, queued: seq<int>, q: int, c: int)
    requires InvBut(s, q) && IsRemoteOf(s, q, c) && q !in s.tab.r2c
    requires forall fd :: fd in queued ==> fd == q
    ensures var s' := s.(fds := s.fds - {q}, closing := s.closing + queued, tab := s.tab.(buf := s.tab.buf - {q}));
            Inv(s') && forall r :: !IsRemoteOf(s', r, c)
  {
    hide ServedOk, LifeOk;
    var s' := s.(fds := s.fds - {q}, closing := s.closing + queued, tab := s.tab.(buf := s.tab.buf - {q}));
    RemotesPaired(s, q);
    hide FdOk;
    LessKeeps(s, s', q, {q}, q);
    NothingLeft(s', q);
  }

  lemma ForgetRequest(s: State, c: int)
    requires Inv(s) && forall r :: !IsRemoteOf(s, r, c)
    ensures Inv(s.(tab := s.tab.(forward := s.tab.forward - {c})))
  {
    hide ServedOk, LifeOk;
    var s' := s.(tab := s.tab.(forward := s.tab.forward - {c}));
    forall fd | fd in s'.fds ensures FdOk(s', fd) {
      assert FdOk(s, fd) && !IsRemoteOf(s, fd, c);
    }
  }

  /** Whatever is closed, in whatever state it is, everything else stays in order. In particular when the
      remote on record for a client is another's by now. */
  lemma {:induction false} CloseKeeps(s: State, q: int)
    requires InvBut(s, q)
    ensures Inv(Close(s, q))
    decreases |s.fds|
  {
    hide FdOk, InvBut, Inv, Cleared;
    if q !in s.fds {
      NothingLeft(s, q);
    } else {
      Fewer(s.fds, q);
      match s.fds[q] {
        case Client =>
          ClientCleared(s, q);
          ClearedFds(Let(s, q), q);
          if q in s.tab.c2r {
            CloseKeeps(Cleared(Let(s, q), q), s.tab.c2r[q]);
          } else {
            NothingLeft(Cleared(Let(s, q), q), q);
          }
        case Linked(c) => LinkedKeeps(s, q, c);
        case Dialing(c) => DialingKeeps(s, q, c);
      }
    }
  }

  lemma ClearedFds(s: State, c: int)
    ensures Cleared(s, c).fds == s.fds && Cleared(s, c).tab.c2r == s.tab.c2r - {c}
  {
  }

  lemma OnRecord(s: State, q: int, c: int)
    requires InvBut(s, q) && IsRemoteOf(s, q, c) && q in s.tab.r2c
    ensures c in s.fds && s.fds[c] == Client && c in s.tab.c2r && s.tab.c2r[c] == q && c != q
  {
    assert IsRemoteOf(s, q, s.tab.r2c[q]);
  }

  lemma LinkedKeeps(s: State, q: int, c: int)
    requires InvBut(s, q) && q in s.fds && s.fds[q] == Linked(c)
    ensures Inv(Close(s, q))
  {
    hide FdOk, InvBut, Inv, Close;
    if q in s.tab.r2c {
      OnRecord(s, q, c);
      RecordedRemoteStep(s, q, c);
      PairGone(s, [q] + [c], q, c, true);
    } else {
      LinkedStep(s, q, c);
      LoneRemoteGone(s, [q], q, c);
      ForgetRequest(s.(fds := s.fds - {q}, closing := s.closing + [q], tab := s.tab.(buf := s.tab.buf - {q})), c);
    }
  }

  lemma DialingKeeps(s: State, q: int, c: int)
    requires InvBut(s, q) && q in s.fds && s.fds[q] == Dialing(c)
    ensures Inv(Close(s, q))
  {
    hide FdOk, InvBut, Inv, Close;
    var s1 := s.(fds := s.fds - {q});
    DialingStep(s, q, c);
    if c in s.fds {
      StillPaired(s, q, c);
      DialFailedStep(s1, q, c);
      assert s1.fds - {q} - {c} == s.fds - {q} - {c};
      assert s.closing + ([c] + [q]) + [q] == s.closing + ([c] + [q] + [q]);
      PairGone(s, [c] + [q] + [q], q, c, false);
    } else {
      LoneClose(s1, c);
      assert s.closing + [q] + [q] == s.closing + ([q] + [q]);
      NoBuffer(s, q, c);
      LoneRemoteGone(s, [q] + [q], q, c);
    }
  }

  lemma NoBuffer(s: State, q: int, c: int)
    requires InvBut(s, q) && q in s.fds && s.fds[q] == Dialing(c) && c !in s.fds
    ensures s.tab.buf - {q} == s.tab.buf && q !in s.tab.r2c
  {
    assert q in s.tab.r2c ==> IsRemoteOf(s, q, s.tab.r2c[q]);
  }

  lemma LoneClose(s: State, c: int)
    requires c !in s.fds
    ensures Close(s, c) == s
  {
  }

  lemma StillPaired(s: State, q: int, c: int)
    requires InvBut(s, q) && IsRemoteOf(s, q, c) && c in s.fds
    ensures s.fds[c] == Client && c in s.tab.c2r && s.tab.c2r[c] == q && c != q
  {
  }

  // ---- Events keep the order ----

  /** Only what concerns client `c` changed, and nothing its remote depends on. */
  ghost predicate Around(s: State, s': State, c: int) {
    && s'.fds == s.fds && s'.closing == s.closing && s'.opens == s.opens && s'.ups == s.ups
    && s'.tab.c2r == s.tab.c2r && s'.tab.r2c == s.tab.r2c
    && (forall k :: k != c ==> PhaseOf(s', k) == PhaseOf(s, k) && LifeOf(s', k) == LifeOf(s, k))
    && (forall k :: k != c ==> (k in s'.tab.buf <==> k in s.tab.buf) && Saved(s'.tab.buf, k) == Saved(s.tab.buf, k))
    && (forall k :: k != c ==> (k in s'.tab.forward <==> k in s.tab.forward))
    && (forall k :: k != c && k in s.tab.forward ==> s'.tab.forward[k] == s.tab.forward[k])
  }

  predicate SameForRemote(s: State, s': State, c: int) {
    && PhaseOf(s', c) == PhaseOf(s, c) && LifeOf(s', c).taken == LifeOf(s, c).taken
    && s'.tab.forward == s.tab.forward
  }

  lemma AroundFd(s: State, s': State, c: int, fd: int)
    requires Around(s, s', c) && fd in s.fds && fd != c && FdOk(s, fd)
    requires !IsRemoteOf(s, fd, c) || SameForRemote(s, s', c)
    ensures FdOk(s', fd)
  {
    hide ServedOk, LifeOk;
  }

  /** Also while another descriptor `x` is not in order. */
  lemma AroundKeeps(s: State, s': State, c: int, x: int)
    requires InvBut(s, x) && Around(s, s', c) && c in s.fds && s.fds[c] == Client
    requires SameForRemote(s, s', c) || forall r :: !IsRemoteOf(s, r, c)
    requires x == c || ServedOk(LifeOf(s', c), PhaseOf(s', c), Saved(s'.tab.buf, c))
    ensures InvBut(s', x)
  {
    hide ServedOk, LifeOk, FdOk;
    forall fd | fd in s'.fds && fd != x ensures FdOk(s', fd) {
      if fd == c {
        ClientFd(s', c);
      } else {
        AroundFd(s, s', c, fd);
      }
    }
  }

  lemma ClientFd(s: State, c: int)
    requires c in s.fds && s.fds[c] == Client
    ensures FdOk(s, c) <==> ServedOk(LifeOf(s, c), PhaseOf(s, c), Saved(s.tab.buf, c))
  {
    hide ServedOk, LifeOk;
  }

  lemma Whole(s: State, x: int)
    requires InvBut(s, x) && (x in s.fds ==> FdOk(s, x))
    ensures Inv(s) && InvBut(s, x)
  {
    hide ServedOk, LifeOk, FdOk;
    forall c | IsRemoteOf(s, -1, c) && c in s.fds ensures s.fds[c] == Client && c in s.tab.c2r && s.tab.c2r[c] == -1 {
      FdRemote(s, -1, c);
    }
  }

  lemma FdRemote(s: State, r: int, c: int)
    requires IsRemoteOf(s, r, c) && FdOk(s, r)
    ensures c in s.fds && s.fds[c] == Client && c in s.tab.c2r && s.tab.c2r[c] == r && PhaseOf(s, c) == ParsingResponse
  {
  }

  lemma Any(s: State, x: int)
    requires Inv(s)
    ensures InvBut(s, x)
  {
    hide ServedOk, LifeOk, FdOk;
    forall c | IsRemoteOf(s, x, c) && c in s.fds ensures s.fds[c] == Client && c in s.tab.c2r && s.tab.c2r[c] == x {
      FdRemote(s, x, c);
    }
  }

  lemma NoRemote(s: State, c: int, x: int)
    requires InvBut(s, x) && PhaseOf(s, c) == ParsingRequest && (x in s.fds ==> s.fds[x] == Client)
    ensures forall r :: !IsRemoteOf(s, r, c)
  {
    hide ServedOk, LifeOk, FdOk;
    forall r ensures !IsRemoteOf(s, r, c) {
      if IsRemoteOf(s, r, c) {
        FdRemote(s, r, c);
        assert false;
      }
    }
  }

  /** The client is about to have `whole` parsed: its state is in order but for the buffer. */
  ghost predicate Ready(s: State, c: int, whole: bytes) {
    && InvBut(s, c) && c in s.fds && s.fds[c] == Client && PhaseOf(s, c) == ParsingRequest && c !in s.tab.buf
    && LifeOk(LifeOf(s, c), ParsingRequest, whole)
  }

  lemma TakenOk(l: Life, whole: bytes, request: Request, rest: bytes)
    requires LifeOk(l, ParsingRequest, whole) && ParseRequest(whole) == Ok(request, rest)
    ensures LifeOk(l.(taken := l.taken + [request]), ParsingResponse, rest)
  {
    hide ParseRequest;
    var l' := l.(taken := l.taken + [request]);
    forall i | 0 <= i < |l'.answers| ensures AnswerOk(l', i) {
      assert AnswerOk(l, i);
    }
  }

  lemma TakeKeeps(s: State, c: int, whole: bytes, request: Request, rest: bytes)
    requires Ready(s, c, whole) && ParseRequest(whole) == Ok(request, rest)
    ensures Inv(Take(s, c, request, rest))
    ensures forall r :: !IsRemoteOf(s, r, c)
  {
    hide ServedOk, LifeOk, FdOk, InvBut, ParseRequest;
    var s' := Take(s, c, request, rest);
    NoRemote(s, c, c);
    TakenOk(LifeOf(s, c), whole, request, rest);
    Served(LifeOf(s', c), ParsingResponse, rest);
    AroundKeeps(s, s', c, c);
    ClientFd(s', c);
    Whole(s', c);
  }

  lemma DialFd(s: State, c: int, request: Request, remote: int, index: nat, fd: int)
    requires fd in s.fds && FdOk(s, fd) && !IsRemoteOf(s, fd, c) && remote !in s.fds && c in s.fds && s.fds[c] == Client
    ensures FdOk(Dial(s, c, request, remote, index), fd)
  {
    hide ServedOk, LifeOk;
  }

  lemma DialKeeps(s: State, c: int, request: Request, remote: int, index: nat)
    requires Inv(s) && c in s.fds && s.fds[c] == Client && PhaseOf(s, c) == ParsingResponse && remote !in s.opens
    requires |LifeOf(s, c).taken| == index + 1 && LifeOf(s, c).taken[index] == request
    requires forall r :: !IsRemoteOf(s, r, c)
    ensures Inv(Dial(s, c, request, remote, index))
  {
    hide ServedOk, LifeOk, FdOk;
    var s' := Dial(s, c, request, remote, index);
    forall fd | fd in s'.fds ensures FdOk(s', fd) {
      if fd != remote {
        DialFd(s, c, request, remote, index, fd);
      } else {
        DialedFd(s, c, request, remote, index);
      }
    }
    forall r | r in s'.tab.r2c ensures IsRemoteOf(s', r, s'.tab.r2c[r]) && s'.tab.r2c[r] in s'.fds {
      if r != remote {
        assert IsRemoteOf(s, r, s.tab.r2c[r]);
      }
    }
    forall k | IsRemoteOf(s', -1, k) && k in s'.fds
      ensures s'.fds[k] == Client && k in s'.tab.c2r && s'.tab.c2r[k] == -1
    {
      FdRemote(s', -1, k);
    }
  }

  lemma DialedFd(s: State, c: int, request: Request, remote: int, index: nat)
    requires remote !in s.fds && remote !in s.tab.buf && c in s.fds && s.fds[c] == Client
          && PhaseOf(s, c) == ParsingResponse
    requires |LifeOf(s, c).taken| == index + 1 && LifeOf(s, c).taken[index] == request
    ensures FdOk(Dial(s, c, request, remote, index), remote)
  {
  }

  /** Parsing a request keeps everything in order, whatever becomes of it. */
  lemma ParsedKeeps(s: State, c: int, whole: bytes, fate: Fate)
    requires Ready(s, c, whole)
    ensures Inv(Parsed(s, c, whole, fate))
  {
    hide ServedOk, LifeOk, FdOk, InvBut, Inv, ParseRequest, Close, Dial, Take;
    match ParseRequest(whole) {
      case Again =>
        var s' := s.(tab := s.tab.(buf := s.tab.buf[c := whole]));
        Served(LifeOf(s, c), ParsingRequest, whole);
        AroundKeeps(s, s', c, c);
        ClientFd(s', c);
        Whole(s', c);
      case Bad =>
        CloseKeeps(s, c);
      case Ok(request, rest) =>
        var s1 := Take(s, c, request, rest);
        TakeKeeps(s, c, whole, request, rest);
        TakeParts(s, c, request, rest);
        Any(s1, c);
        if !fate.ok {
          CloseKeeps(s1, c);
        } else if fate.how == Fails || fate.remote in s1.opens {
          var s2 := s1.(tab := s1.tab.(forward := s1.tab.forward[c := request]));
          AroundKeeps(s1, s2, c, c);
          CloseKeeps(s2, c);
        } else {
          DialKeeps(s1, c, request, fate.remote, |LifeOf(s, c).taken|);
        }
    }
  }

  lemma TakeParts(s: State, c: int, request: Request, rest: bytes)
    ensures var s1 := Take(s, c, request, rest);
            && s1.fds == s.fds && s1.opens == s.opens && PhaseOf(s1, c) == ParsingResponse
            && LifeOf(s1, c).taken == LifeOf(s, c).taken + [request]
            && forall r, k :: IsRemoteOf(s1, r, k) <==> IsRemoteOf(s, r, k)
  {
  }

  lemma MoreReceived(l: Life, phase: Phase, buffered: bytes, message: bytes)
    requires LifeOk(l, phase, buffered)
    ensures LifeOk(l.(rcvd := l.rcvd + message), phase, buffered + message)
  {
    hide Requests;
    var l' := l.(rcvd := l.rcvd + message);
    RequestsExtend(l.rcvd, message, |l.taken|);
    forall i | 0 <= i < |l'.answers| ensures AnswerOk(l', i) {
      assert AnswerOk(l, i);
    }
  }

  lemma ClientLife(s: State, c: int)
    requires Inv(s) && c in s.fds && s.fds[c] == Client
    ensures ServedOk(LifeOf(s, c), PhaseOf(s, c), Saved(s.tab.buf, c))
    ensures LifeOk(LifeOf(s, c), PhaseOf(s, c), Saved(s.tab.buf, c))
  {
    hide LifeOk, ParseRequest;
    assert FdOk(s, c);
  }

  lemma DataKeeps(s: State, c: int, message: bytes, fate: Fate)
    requires Inv(s) && c in s.fds && s.fds[c] == Client
    ensures Inv(OnMessage(Received(s, c, message), c, message, fate))
  {
    hide ServedOk, LifeOk, FdOk, InvBut, Inv, Parsed;
    ClientLife(s, c);
    MoreReceived(LifeOf(s, c), PhaseOf(s, c), Saved(s.tab.buf, c), message);
    Any(s, c);
    var s0 := Received(s, c, message);
    var whole := Saved(s.tab.buf, c) + message;
    var s1 := Erased(s0, c);
    AroundKeeps(s, s1, c, c);
    if PhaseOf(s, c) == ParsingResponse {
      var s' := s1.(tab := s1.tab.(buf := s1.tab.buf[c := whole]));
      Served(LifeOf(s', c), ParsingResponse, whole);
      AroundKeeps(s, s', c, c);
      ClientFd(s', c);
      Whole(s', c);
    } else {
      ParsedKeeps(s1, c, whole, fate);
    }
  }

  lemma AcceptKeeps(s: State, c: int)
    requires Inv(s) && c !in s.opens
    ensures Inv(Accepted(s, c))
  {
    hide ServedOk, LifeOk, FdOk;
    var s' := Accepted(s, c);
    forall fd | fd in s'.fds ensures FdOk(s', fd) {
      if fd != c {
        AcceptFd(s, c, fd);
      } else {
        AcceptedFd(s, c);
      }
    }
    forall r | r in s'.tab.r2c ensures IsRemoteOf(s', r, s'.tab.r2c[r]) && s'.tab.r2c[r] in s'.fds {
      assert IsRemoteOf(s, r, s.tab.r2c[r]);
    }
    forall k | IsRemoteOf(s', -1, k) && k in s'.fds
      ensures s'.fds[k] == Client && k in s'.tab.c2r && s'.tab.c2r[k] == -1
    {
      FdRemote(s', -1, k);
    }
  }

  lemma AcceptFd(s: State, c: int, fd: int)
    requires fd in s.fds && fd != c && FdOk(s, fd) && c !in s.fds
    ensures FdOk(Accepted(s, c), fd)
  {
    hide ServedOk, LifeOk;
  }

  lemma AcceptedFd(s: State, c: int)
    requires c !in s.tab.buf
    ensures FdOk(Accepted(s, c), c)
  {
    hide ServedOk, LifeOk;
    FreshLife();
  }

  lemma FreshLife()
    ensures ServedOk(Life([], [], []), ParsingRequest, [])
  {
  }

  lemma ConnectFd(s: State, r: int, c: int, fd: int)
    requires r in s.fds && s.fds[r] == Dialing(c) && RemoteOk(s, r, c, false) && fd in s.fds && FdOk(s, fd)
    ensures FdOk(OnRemoteConnect(s, r, c), fd)
  {
    hide ServedOk, LifeOk;
  }

  lemma ConnectKeeps(s: State, r: int, c: int)
    requires Inv(s) && r in s.fds && s.fds[r] == Dialing(c)
    ensures Inv(OnRemoteConnect(s, r, c))
  {
    hide ServedOk, LifeOk, FdOk;
    var s' := OnRemoteConnect(s, r, c);
    DialingOk(s, r, c);
    forall fd | fd in s'.fds ensures FdOk(s', fd) {
      ConnectFd(s, r, c, fd);
    }
    forall x | x in s'.tab.r2c ensures IsRemoteOf(s', x, s'.tab.r2c[x]) && s'.tab.r2c[x] in s'.fds {
      assert IsRemoteOf(s, x, s.tab.r2c[x]);
    }
    forall k | IsRemoteOf(s', -1, k) && k in s'.fds
      ensures s'.fds[k] == Client && k in s'.tab.c2r && s'.tab.c2r[k] == -1
    {
      FdRemote(s', -1, k);
    }
  }

  lemma DialingOk(s: State, r: int, c: int)
    requires Inv(s) && r in s.fds && s.fds[r] == Dialing(c)
    ensures RemoteOk(s, r, c, false)
  {
    assert FdOk(s, r);
  }

  lemma LinkedOk(s: State, r: int, c: int)
    requires Inv(s) && r in s.fds && s.fds[r] == Linked(c)
    ensures RemoteOk(s, r, c, true)
  {
    assert FdOk(s, r);
  }

  lemma DialFailedKeeps(s: State, r: int, c: int)
    requires Inv(s) && r in s.fds && s.fds[r] == Dialing(c)
    ensures Inv(DialFailed(s.(fds := s.fds - {r}), r, c))
  {
    hide ServedOk, LifeOk, FdOk, Close, Inv, InvBut;
    var s1 := s.(fds := s.fds - {r});
    Any(s, r);
    FdHere(s, r);
    FdRemote(s, r, c);
    StillPaired(s, r, c);
    DialFailedStep(s1, r, c);
    assert s1.fds - {r} - {c} == s.fds - {r} - {c};
    PairGone(s, [c] + [r], r, c, false);
  }

  lemma FdHere(s: State, fd: int)
    requires Inv(s) && fd in s.fds
    ensures FdOk(s, fd)
  {
  }

  // ---- A response ----

  /** The remote's own entry changed; everything else is as it was. */
  lemma HeardKeeps(s: State, s': State, r: int, c: int)
    requires Inv(s) && r in s.fds && s.fds[r] == Linked(c)
    requires s' == s.(ups := s'.ups, tab := s.tab.(buf := s'.tab.buf))
    requires forall k :: k != r ==> UpstreamOf(s', k) == UpstreamOf(s, k)
    requires forall k :: k != r ==> (k in s'.tab.buf <==> k in s.tab.buf) && Saved(s'.tab.buf, k) == Saved(s.tab.buf, k)
    ensures InvBut(s', r)
  {
    hide ServedOk, LifeOk, FdOk;
    forall fd | fd in s'.fds && fd != r ensures FdOk(s', fd) {
      HeardFd(s, s', r, fd);
    }
    FdRemote2(s, r, c);
  }

  lemma HeardFd(s: State, s': State, r: int, fd: int)
    requires fd in s.fds && fd != r && FdOk(s, fd) && s' == s.(ups := s'.ups, tab := s.tab.(buf := s'.tab.buf))
    requires forall k :: k != r ==> UpstreamOf(s', k) == UpstreamOf(s, k) && Saved(s'.tab.buf, k) == Saved(s.tab.buf, k)
    ensures FdOk(s', fd)
  {
    hide ServedOk, LifeOk;
  }

  lemma FdRemote2(s: State, r: int, c: int)
    requires Inv(s) && r in s.fds && s.fds[r] == Linked(c)
    ensures forall k :: IsRemoteOf(s, r, k) ==> k == c
    ensures c in s.fds && s.fds[c] == Client && c in s.tab.c2r && s.tab.c2r[c] == r
  {
    LinkedOk(s, r, c);
  }

  lemma AnswerTaken(l: Life, buffered: bytes, a: Answer)
    requires LifeOk(l, ParsingResponse, buffered)
    requires a.index == |l.taken| - 1 && a.request == l.taken[a.index] && a.asked == [a.request]
    requires ParseUpstream(a.heard).Ok? && a.response == ParseUpstream(a.heard).value
    ensures LifeOk(l.(answers := l.answers + [a]), ParsingRequest, buffered)
  {
    hide ParseUpstream;
    var l' := l.(answers := l.answers + [a]);
    forall i | 0 <= i < |l'.answers| ensures AnswerOk(l', i) {
      if i < |l.answers| {
        assert AnswerOk(l, i);
      }
    }
  }

  /** The answered client asks again, its remote forgotten and closed. */
  function Settled(s: State, r: int, c: int, a: Answer): State {
    var s1 := CloseRemote(Answered(s, c, a), r);
    s1.(tab := s1.tab.(state := s1.tab.state[c := ParsingRequest]))
  }

  lemma CloseForgotten(s: State, r: int, c: int)
    requires r in s.fds && s.fds[r] == Linked(c)
    ensures CloseRemote(s, r) == s.(fds := s.fds - {r}, closing := s.closing + [r],
              tab := s.tab.(buf := s.tab.buf - {r}, r2c := s.tab.r2c - {r}, forward := s.tab.forward - {c}))
  {
    hide Close;
    LinkedStep(Forgotten(s, r), r, c);
    assert s.tab.buf - {r} - {r} == s.tab.buf - {r};
  }

  lemma SettledKeeps(s: State, r: int, c: int, a: Answer)
    requires InvBut(s, r) && r in s.fds && s.fds[r] == Linked(c) && r !in s.tab.buf
    requires c in s.fds && s.fds[c] == Client && c in s.tab.c2r && s.tab.c2r[c] == r && c != r
    ensures var s' := Settled(s, r, c, a);
            && InvBut(s', c) && c in s'.fds && s'.fds[c] == Client && PhaseOf(s', c) == ParsingRequest
            && s'.tab.buf == s.tab.buf && LifeOf(s', c) == LifeOf(s, c).(answers := LifeOf(s, c).answers + [a])
  {
    hide ServedOk, LifeOk, FdOk, Close, InvBut, Inv;
    CloseForgotten(Answered(s, c, a), r, c);
    var s2 := s.(tab := s.tab.(r2c := s.tab.r2c - {r}));
    ForgottenKeeps(s, s2, r, c);
    LoneRemoteGone(s2, [r], r, c);
    var s3 := s2.(fds := s2.fds - {r}, closing := s2.closing + [r], tab := s2.tab.(buf := s2.tab.buf - {r}));
    ForgetRequest(s3, c);
    assert s.tab.buf - {r} == s.tab.buf;
    var s4 := s3.(tab := s3.tab.(forward := s3.tab.forward - {c}));
    Any(s4, c);
    assert forall x :: IsRemoteOf(s4, x, c) ==> IsRemoteOf(s3, x, c);
    AnsweredAround(s4, c, a);
    AroundKeeps(s4, Settled(s, r, c, a), c, c);
  }

  lemma AnsweredAround(s: State, c: int, a: Answer)
    ensures var s1 := Answered(s, c, a); Around(s, s1.(tab := s1.tab.(state := s1.tab.state[c := ParsingRequest])), c)
  {
  }

  lemma ForgottenKeeps(s: State, s2: State, r: int, c: int)
    requires InvBut(s, r) && r in s.fds && s.fds[r] == Linked(c)
    requires c in s.fds && s.fds[c] == Client && c in s.tab.c2r && s.tab.c2r[c] == r
    requires s2 == s.(tab := s.tab.(r2c := s.tab.r2c - {r}))
    ensures InvBut(s2, r)
  {
    hide ServedOk, LifeOk;
    RemotesPaired(s, r);
    forall fd | fd in s2.fds && fd != r ensures FdOk(s2, fd) {
      assert FdOk(s, fd);
      assert !IsRemoteOf(s, fd, c);
    }
    forall x | x in s2.tab.r2c ensures IsRemoteOf(s2, x, s2.tab.r2c[x]) && s2.tab.r2c[x] in s2.fds {
      assert IsRemoteOf(s, x, s.tab.r2c[x]);
    }
  }

  lemma NextKeeps(s: State, c: int, fate: Fate)
    requires InvBut(s, c) && c in s.fds && s.fds[c] == Client && PhaseOf(s, c) == ParsingRequest
    requires LifeOk(LifeOf(s, c), ParsingRequest, Saved(s.tab.buf, c))
    ensures Inv(if c in s.tab.buf then OnMessage(Erased(s, c), c, s.tab.buf[c], fate) else s)
  {
    hide ServedOk, LifeOk, FdOk, InvBut, Inv, Parsed;
    if c in s.tab.buf {
      var whole := s.tab.buf[c];
      var s1 := Erased(s, c);
      AroundKeeps(s, s1, c, c);
      assert [] + whole == whole && Erased(s1, c) == s1 by { assert s.tab.buf - {c} - {c} == s.tab.buf - {c}; }
      ParsedKeeps(s1, c, whole, fate);
    } else {
      Served(LifeOf(s, c), ParsingRequest, []);
      ClientFd(s, c);
      Whole(s, c);
    }
  }

  /** The answered client is closed: its remote goes with it. */
  lemma LastKeeps(s: State, r: int, c: int, a: Answer)
    requires InvBut(s, r) && r in s.fds && s.fds[r] == Linked(c) && r !in s.tab.buf
    requires c in s.fds && s.fds[c] == Client && c in s.tab.c2r && s.tab.c2r[c] == r && c != r
    ensures Inv(Close(Answered(s, c, a), c))
  {
    hide ServedOk, LifeOk, FdOk, InvBut, Inv, Close;
    var s1 := Answered(s, c, a);
    ClientStep(s1, c);
    var s2 := Cleared(Let(s1, c), c);
    LeftUnsaid(s, s2, r, c);
    CloseKeeps(s2, r);
  }

  lemma ClientStep(s: State, c: int)
    requires c in s.fds && s.fds[c] == Client
    ensures Close(s, c) == OnClose(Let(s, c), c)
  {
    hide OnClose;
  }

  lemma LeftFd(s: State, s2: State, r: int, c: int, fd: int)
    requires fd in s.fds && fd != r && fd != c && FdOk(s, fd) && !IsRemoteOf(s, fd, c)
    requires c in s.tab.c2r && s.tab.c2r[c] == r && s2 == Cleared(Let(s.(lives := s2.lives), c), c)
    requires forall k :: k != c ==> LifeOf(s2, k) == LifeOf(s, k)
    ensures fd in s2.fds && FdOk(s2, fd)
  {
    hide ServedOk, LifeOk;
  }

  lemma LeftUnsaid(s: State, s2: State, r: int, c: int)
    requires InvBut(s, r) && IsRemoteOf(s, r, c) && s.fds[r].Linked?
    requires c in s.fds && s.fds[c] == Client && c in s.tab.c2r && s.tab.c2r[c] == r
    requires s2 == Cleared(Let(s.(lives := s2.lives), c), c)
    requires forall k :: k != c ==> LifeOf(s2, k) == LifeOf(s, k)
    ensures InvBut(s2, r)
  {
    hide ServedOk, LifeOk, FdOk;
    RemotesPaired(s, r);
    NotInTable(s, r, c);
    forall fd | fd in s2.fds && fd != r ensures FdOk(s2, fd) {
      LeftFd(s, s2, r, c, fd);
    }
    forall x | x in s2.tab.r2c ensures IsRemoteOf(s2, x, s2.tab.r2c[x]) && s2.tab.r2c[x] in s2.fds {
      assert IsRemoteOf(s, x, s.tab.r2c[x]);
    }
  }

  /** A client closed while it waits takes its remote and the request on record with it. */
  lemma ClosedForgets(s: State, r: int, c: int)
    requires c in s.fds && s.fds[c] == Client && c in s.tab.c2r && s.tab.c2r[c] == r
    requires r != c && r in s.fds && s.fds[r] == Linked(c)
    ensures ForwardOf(Close(s, c), c) == NoRequest
  {
    hide Close;
    ClientStep(s, c);
    OnCloseStep(Let(s, c), c);
    LinkedStep(Cleared(Let(s, c), c), r, c);
  }

  lemma HaltInv(s: State)
    ensures Inv(Halt(s))
  {
  }

  lemma UpstreamKeeps(s: State, r: int, c: int, message: bytes, broken: bool, fate: Fate)
    requires Inv(s) && r in s.fds && s.fds[r] == Linked(c)
    ensures Inv(OnRemoteMessage(s, r, c, message, broken, fate))
  {
    hide ServedOk, LifeOk, FdOk, InvBut, Inv, Close, OnMessage, ParseUpstream, LastRequest;
    LinkedOk(s, r, c);
    ClientLife(s, c);
    var u := UpstreamOf(s, r);
    var whole := u.heard + message;
    var s1 := Erased(s, r).(ups := s.ups[r := u.(heard := whole)]);
    HeardKeeps(s, s1, r, c);
    match ParseUpstream(whole) {
      case Again =>
        var s' := s1.(tab := s1.tab.(buf := s1.tab.buf[r := whole]));
        HeardKeeps(s, s', r, c);
        RemoteFd(s', r, c);
        Whole(s', r);
      case Bad => CloseKeeps(s1, r);
      case Ok(response, _) =>
        var a := Answer(ForwardOf(s1, c), response, u.index, u.asked, whole);
        AnswerTaken(LifeOf(s, c), Saved(s.tab.buf, c), a);
        if broken {
          ClosedForgets(Answered(s1, c, a), r, c);
          HaltInv(Close(Answered(s1, c, a), c));
        } else if Throws(ForwardOf(s1, c)) {
          HaltInv(Answered(s1, c, a));
        } else if LastRequest(ForwardOf(s1, c)) {
          LastKeeps(s1, r, c, a);
        } else {
          SettledKeeps(s1, r, c, a);
          var s3 := Settled(s1, r, c, a);
          NextKeeps(s3, c, fate);
          NextIs(CloseRemote(Answered(s1, c, a), r), c, fate);
        }
    }
  }

  lemma RemoteFd(s: State, r: int, c: int)
    requires r in s.fds && s.fds[r] == Linked(c) && RemoteOk(s, r, c, true)
    ensures FdOk(s, r)
  {
  }

  lemma NextIs(s: State, c: int, fate: Fate)
    ensures var s1 := s.(tab := s.tab.(state := s.tab.state[c := ParsingRequest]));
            Next(s, c, fate) == if c in s1.tab.buf then OnMessage(Erased(s1, c), c, s1.tab.buf[c], fate) else s1
  {
    hide OnMessage;
  }

  lemma BatchEndKeeps(s: State)
    requires Inv(s)
    ensures Inv(Step(s, BatchEnd))
  {
    hide ServedOk, LifeOk, FdOk;
    var s' := Step(s, BatchEnd);
    forall fd | fd in s'.fds ensures FdOk(s', fd) {
      FlushFd(s, fd);
    }
    forall x | x in s'.tab.r2c ensures IsRemoteOf(s', x, s'.tab.r2c[x]) && s'.tab.r2c[x] in s'.fds {
      assert IsRemoteOf(s, x, s.tab.r2c[x]);
    }
    forall k | IsRemoteOf(s', -1, k) && k in s'.fds
      ensures s'.fds[k] == Client && k in s'.tab.c2r && s'.tab.c2r[k] == -1
    {
      FdRemote(s', -1, k);
    }
  }

  lemma FlushFd(s: State, fd: int)
    requires fd in s.fds && FdOk(s, fd)
    ensures fd in Step(s, BatchEnd).fds && FdOk(Step(s, BatchEnd), fd)
  {
    hide ServedOk, LifeOk;
  }

  lemma StepKeeps(s: State, e: Event)
    requires Inv(s)
    ensures Inv(Step(s, e))
  {
    hide Inv, OnMessage, OnRemoteMessage, OnRemoteConnect, DialFailed, Close, Accepted;
    if !s.halted && Enabled(s, e) {
      match e {
        case Accept(c) => AcceptKeeps(s, c);
        case Data(c, message, fate) => DataKeeps(s, c, message, fate);
        case Dialed(r, ok) =>
          if ok {
            ConnectKeeps(s, r, s.fds[r].client);
          } else {
            DialFailedKeeps(s, r, s.fds[r].client);
          }
        case UpstreamData(r, message, broken, fate) => UpstreamKeeps(s, r, s.fds[r].client, message, broken, fate);
        case Hangup(fd) =>
          Any(s, fd);
          CloseKeeps(s, fd);
        case BatchEnd => BatchEndKeeps(s);
      }
    }
  }

  lemma {:induction false} RunKeeps(events: seq<Event>)
    ensures Inv(Run(events))
  {
    hide Inv, Step;
    if events == [] {
      StartInv();
    } else {
      RunKeeps(events[..|events| - 1]);
      StepKeeps(Run(events[..|events| - 1]), events[|events| - 1]);
    }
  }

  lemma StartInv()
    ensures Inv(Start)
  {
  }

  // ---- What the gateway promises ----

  /** Pipelining (section 8.1.2.2 of RFC 2616). However the chunks of clients and upstreams interleave, and
      whatever is closed meanwhile, for every client connection that is still served: the requests taken are,
      in order, the first ones of its whole stream, which is what a server reading that stream in any chunks
      would get; the i-th answer is to the i-th request, and was read from the one upstream that was sent that
      request and nothing else; at most one request is unanswered; and when none is, every complete request of the
      stream has been taken. */
  lemma GatewayPipelining(events: seq<Event>, c: int, chunks: seq<bytes>)
    requires var s := Run(events); c in s.fds && s.fds[c] == Client && C.Flatten(chunks) == LifeOf(s, c).rcvd
    ensures var s := Run(events);
            var l := LifeOf(s, c);
            && Requests(l.rcvd, |l.taken|) == (l.taken, Saved(s.tab.buf, c))
            && l.taken <= C.FeedAll(ParseRequest, C.Never, C.Fresh(), chunks).got
            && (forall i :: 0 <= i < |l.answers| ==> i < |l.taken| && AnswerOk(l, i))
            && |l.taken| == |l.answers| + (if PhaseOf(s, c) == ParsingResponse then 1 else 0)
            && (PhaseOf(s, c) == ParsingRequest ==> l.taken == C.FeedAll(ParseRequest, C.Never, C.Fresh(), chunks).got)
  {
    hide Inv, Run, ParseRequest, C.Drain;
    RunKeeps(events);
    var s := Run(events);
    var l := LifeOf(s, c);
    ClientLife(s, c);
    RequestStable();
    RequestsAreDrained(l.rcvd, |l.taken|);
    C.ChunksAreOne(ParseRequest, C.Never, chunks);
    assert [] + l.rcvd == l.rcvd;
    C.DrainStep(ParseRequest, C.Never, C.Conn(l.taken, Saved(s.tab.buf, c), false));
  }

  /** One upstream connection at a time, and the two tables agree: every remote watched or on record belongs to
      a waiting client whose own record is that remote. (The other direction fails: see StaleRecord.) */
  lemma OneUpstream(events: seq<Event>)
    ensures var s := Run(events);
            && (forall r, c :: IsRemoteOf(s, r, c) ==>
               c in s.fds && s.fds[c] == Client && PhaseOf(s, c) == ParsingResponse)
            && (forall r, q, c :: IsRemoteOf(s, r, c) && IsRemoteOf(s, q, c) ==> r == q)
            && (forall r :: r in s.tab.r2c ==> s.tab.r2c[r] in s.tab.c2r && s.tab.c2r[s.tab.r2c[r]] == r)
            && (forall r, c :: IsRemoteOf(s, r, c) ==> r in s.tab.r2c && s.tab.r2c[r] == c)
  {
    hide Run, LifeOk, FdOk;
    RunKeeps(events);
    var s := Run(events);
    forall r, c | IsRemoteOf(s, r, c)
      ensures c in s.fds && s.fds[c] == Client && PhaseOf(s, c) == ParsingResponse
      ensures c in s.tab.c2r && s.tab.c2r[c] == r && r in s.tab.r2c && s.tab.r2c[r] == c
    {
      FdHere(s, r);
      OnRecordHere(s, r, c);
    }
    forall r | r in s.tab.r2c ensures s.tab.r2c[r] in s.tab.c2r && s.tab.c2r[s.tab.r2c[r]] == r {
      assert IsRemoteOf(s, r, s.tab.r2c[r]);
    }
  }

  lemma OnRecordHere(s: State, r: int, c: int)
    requires IsRemoteOf(s, r, c) && FdOk(s, r)
    ensures c in s.fds && s.fds[c] == Client && PhaseOf(s, c) == ParsingResponse
    ensures c in s.tab.c2r && s.tab.c2r[c] == r && r in s.tab.r2c && s.tab.r2c[r] == c
  {
  }

  /** How an upstream cuts its response into chunks, and what else goes on meanwhile, does not change the
      answer: two answers read from the beginning of one stream, in any two runs, give the same response. */
  lemma ResponseChunking(es: seq<Event>, c: int, i: nat, es': seq<Event>, c': int, i': nat, stream: bytes)
    requires c in Run(es).fds && Run(es).fds[c] == Client && c' in Run(es').fds && Run(es').fds[c'] == Client
    requires var l := LifeOf(Run(es), c); i < |l.answers| && l.answers[i].heard <= stream
    requires var l' := LifeOf(Run(es'), c'); i' < |l'.answers| && l'.answers[i'].heard <= stream
    ensures LifeOf(Run(es), c).answers[i].response == LifeOf(Run(es'), c').answers[i'].response
  {
    hide ParseUpstream, Run, Inv;
    AnswerRead(es, c, i, stream);
    AnswerRead(es', c', i', stream);
  }

  lemma AnswerRead(es: seq<Event>, c: int, i: nat, stream: bytes)
    requires c in Run(es).fds && Run(es).fds[c] == Client
    requires var l := LifeOf(Run(es), c); i < |l.answers| && l.answers[i].heard <= stream
    ensures ParseUpstream(stream).Ok? && ParseUpstream(stream).value == LifeOf(Run(es), c).answers[i].response
  {
    hide ParseUpstream, Run, Inv;
    RunKeeps(es);
    ClientLife(Run(es), c);
    var l := LifeOf(Run(es), c);
    assert AnswerOk(l, i);
    var heard := l.answers[i].heard;
    UpstreamExtends(heard, stream[|heard|..]);
    assert heard + stream[|heard|..] == stream;
  }

  /** What ends the program, exactly: answering a request that is on record without a Connection header and
      with a version shorter than "HTTP/", or answering any client into a broken pipe, for closing the client has
      taken its request off the record by the time it is looked up again. */
  lemma HaltsIff(s: State, e: Event)
    requires Inv(s) && !s.halted
    ensures Step(s, e).halted
       <==> e.UpstreamData? && Enabled(s, e) && ParseUpstream(Saved(s.tab.buf, e.remote) + e.message).Ok?
            && (e.broken || Throws(ForwardOf(s, s.fds[e.remote].client)))
  {
    hide ServedOk, LifeOk, FdOk, InvBut, Inv, Close, ParseUpstream, ParseRequest, LastRequest;
    if e.UpstreamData? && Enabled(s, e) && ParseUpstream(Saved(s.tab.buf, e.remote) + e.message).Ok? {
      var r, c := e.remote, s.fds[e.remote].client;
      LinkedOk(s, r, c);
      Recorded(s, c);
      var s1, u := Hear(s, r, e.message), UpstreamOf(s, r);
      var response := ParseUpstream(Saved(s.tab.buf, r) + e.message).value;
      ClosedForgets(Answered(s1, c, Answer(ForwardOf(s1, c), response, u.index, u.asked, u.heard + e.message)), r, c);
    }
  }

  // ---- How far a close reaches ----

  /** Closing adds no descriptor and disturbs none it leaves. */
  ghost predicate Shrunk(s: State, s': State) {
    && (forall fd :: fd in s'.fds ==> fd in s.fds && s'.fds[fd] == s.fds[fd] && PhaseOf(s', fd) == PhaseOf(s, fd))
    && s'.lives == s.lives && s'.opens == s.opens && forall fd :: fd in s.closing ==> fd in s'.closing
  }

  lemma {:induction false} CloseShrinks(s: State, q: int)
    ensures Shrunk(s, Close(s, q)) && q !in Close(s, q).fds
    ensures q in s.fds ==> q in Close(s, q).closing
    decreases |s.fds|
  {
    hide Close, Shrunk, OnClose, OnRemoteClose, Cleared;
    if q !in s.fds {
      LoneClose(s, q);
      ShrunkSame(s, s);
    } else {
      Fewer(s.fds, q);
      match s.fds[q] {
        case Client =>
          ClientStep(s, q);
          ClearedFds(Let(s, q), q);
          ClearedShrinks(s, q);
          if q in s.tab.c2r {
            OnCloseStep(Let(s, q), q);
            CloseShrinks(Cleared(Let(s, q), q), s.tab.c2r[q]);
            ShrunkTwice(s, Cleared(Let(s, q), q), Close(s, q), q);
          } else {
            OnCloseAlone(Let(s, q), q);
          }
        case Linked(c) =>
          LinkedStep(s, q, c);
          LetShrinks(s, q);
          OnRemoteCloseStep(Let(s, q), q, c);
          if q in s.tab.r2c {
            CloseShrinks(Let(s, q), c);
            ShrunkTwice(s, Let(s, q), Close(Let(s, q), c), q);
            ShrunkSame(Close(Let(s, q), c), Close(s, q));
            ShrunkTwice(s, Close(Let(s, q), c), Close(s, q), q);
          } else {
            ShrunkSame(Let(s, q), Close(s, q));
            ShrunkTwice(s, Let(s, q), Close(s, q), q);
          }
        case Dialing(c) =>
          DialingStep(s, q, c);
          var s1 := s.(fds := s.fds - {q});
          LetShrinks(s, q);
          CloseShrinks(s1, c);
          ShrunkSame(Close(s1, c), Close(s, q));
          ShrunkTwice(s1, Close(s1, c), Close(s, q), q);
          ShrunkTwice(s, s1, Close(s, q), q);
      }
    }
  }

  /** The same but for the tables other than the phases, and for what is queued on top. */
  lemma ShrunkSame(s: State, s': State)
    requires s'.fds == s.fds && s'.lives == s.lives && s'.opens == s.opens && s'.tab.state == s.tab.state
    requires forall fd :: fd in s.closing ==> fd in s'.closing
    ensures Shrunk(s, s')
  {
  }

  lemma ShrunkTwice(s: State, s1: State, s2: State, q: int)
    requires Shrunk(s, s1) && Shrunk(s1, s2)
    ensures Shrunk(s, s2) && (q !in s1.fds ==> q !in s2.fds) && (q in s1.closing ==> q in s2.closing)
  {
  }

  lemma LetShrinks(s: State, q: int)
    ensures Shrunk(s, Let(s, q)) && Shrunk(s, s.(fds := s.fds - {q}))
  {
  }

  lemma ClearedShrinks(s: State, q: int)
    ensures var s' := Cleared(Let(s, q), q); Shrunk(s, s') && q !in s'.fds && q in s'.closing
  {
  }

  lemma OnCloseAlone(s: State, c: int)
    requires c !in s.tab.c2r
    ensures OnClose(s, c) == Cleared(s, c)
  {
    hide Close;
  }

  lemma OnRemoteCloseStep(s: State, r: int, c: int)
    ensures var s1, s' := if r in s.tab.r2c then Close(s, c) else s, OnRemoteClose(s, r, c);
            s' == s1.(tab := s1.tab.(buf := s'.tab.buf, forward := s'.tab.forward))
  {
    hide Close;
  }

  /** The number on record for a client, when it is anyone's, is its own remote's. */
  predicate OwnRecord(s: State, c: int) {
    c in s.tab.c2r && s.tab.c2r[c] in s.fds ==> IsRemoteOf(s, s.tab.c2r[c], c)
  }

  /** The client goes, and its remote if it has one. */
  function Reach(s: State, c: int): set<int> {
    if c in s.tab.c2r && s.tab.c2r[c] in s.fds then {c, s.tab.c2r[c]} else {c}
  }

  lemma ConfinedClose(s: State, c: int)
    requires c in s.fds && s.fds[c] == Client && OwnRecord(s, c) && (c in s.tab.c2r ==> s.tab.c2r[c] != c)
    ensures var s' := Close(s, c);
            && s'.fds == s.fds - Reach(s, c) && s'.tab.c2r == s.tab.c2r - {c} && s'.tab.state == s.tab.state - {c}
  {
    hide Close;
    ClientStep(s, c);
    if c in s.tab.c2r {
      var q, s1 := s.tab.c2r[c], Cleared(Let(s, c), c);
      OnCloseStep(Let(s, c), c);
      if q !in s.fds {
        LoneClose(s1, q);
      } else if s.fds[q].Linked? {
        LinkedStep(s1, q, c);
        assert s.fds - {c} - {q} == s.fds - {c, q};
      } else {
        DialingStep(s1, q, c);
        LoneClose(s1.(fds := s1.fds - {q}), c);
        assert s.fds - {c} - {q} == s.fds - {c, q};
      }
    }
  }

  /** Exactly when closing a client closes nobody else: unless the number on record for it is another's. */
  lemma CloseConfinedIff(s: State, c: int)
    requires Inv(s) && c in s.fds && s.fds[c] == Client
    ensures (forall fd :: fd in s.fds && fd != c && !IsRemoteOf(s, fd, c) ==> fd in Close(s, c).fds)
          <==> OwnRecord(s, c)
  {
    hide ServedOk, LifeOk, FdOk, Close;
    if OwnRecord(s, c) {
      ConfinedClose(s, c);
    } else {
      var q := s.tab.c2r[c];
      ClientStep(s, c);
      OnCloseStep(Let(s, c), c);
      CloseShrinks(Cleared(Let(s, c), c), q);
    }
  }

  /** A client that waits for an answer from nobody. */
  ghost predicate Starved(s: State, b: int) {
    b in s.fds && s.fds[b] == Client && PhaseOf(s, b) == ParsingResponse && forall q :: !IsRemoteOf(s, q, b)
  }

  /** And when it is another's, that descriptor is closed, whoever has it: a client; the upstream of another
      client, which is then left waiting for nobody; or an upstream still connecting, with its client. */
  lemma StaleClose(s: State, c: int)
    requires Inv(s) && !s.halted && c in s.fds && s.fds[c] == Client && !OwnRecord(s, c)
    ensures var s', q := Step(s, Hangup(c)), s.tab.c2r[c];
            && q !in s'.fds && q in s'.closing
            && match s.fds[q]
               case Client => true
               case Linked(b) => b != c && Starved(s', b)
               case Dialing(b) => b != c && b in s.fds && b !in s'.fds
  {
    hide ServedOk, LifeOk, FdOk, Close;
    var q, s1 := s.tab.c2r[c], Cleared(Let(s, c), c);
    ClientStep(s, c);
    OnCloseStep(Let(s, c), c);
    CloseShrinks(s1, q);
    FdHere(s, q);
    match s.fds[q] {
      case Client =>
      case Linked(b) =>
        OnRecordHere(s, q, b);
        Any(s, q);
        OnlyRemote(s, q, b);
        LinkedStep(s1, q, b);
        OnRemoteCloseStep(Let(s1, q), q, b);
        Left(s, s1.fds - {q}, q, b);
      case Dialing(b) =>
        OnRecordHere(s, q, b);
        DialingStep(s1, q, b);
        CloseShrinks(s1.(fds := s1.fds - {q}), b);
    }
  }

  lemma Left(s: State, fds: map<int, Role>, q: int, b: int)
    requires q !in fds && (forall fd :: fd in fds ==> fd in s.fds && fds[fd] == s.fds[fd])
    requires forall r :: IsRemoteOf(s, r, b) ==> r == q
    ensures forall r :: r in fds ==> fds[r] != Dialing(b) && fds[r] != Linked(b)
  {
    forall r | r in fds ensures fds[r] != Dialing(b) && fds[r] != Linked(b) {
      assert IsRemoteOf(s, r, b) ==> r == q;
    }
  }

  /** An answered client keeps its old remote's number on record; the next connection may get that number,
      a new client for one. */
  lemma StaleRecord(s: State, r: int, c: int, a: Answer)
    requires Inv(s) && !s.halted && r in s.fds && s.fds[r] == Linked(c)
    ensures var s1 := Settled(s, r, c, a);
            && c in s1.fds && s1.fds[c] == Client && c in s1.tab.c2r && s1.tab.c2r[c] == r && r !in s1.fds
            && var s2 := Step(s1, BatchEnd);
               && Enabled(s2, Accept(r)) && !OwnRecord(Step(s2, Accept(r)), c)
  {
    hide ServedOk, LifeOk, FdOk, Inv, InvBut, Close, OnClose;
    LinkedOk(s, r, c);
    Any(s, r);
    NotInTableEither(s, r, c);
    CloseForgotten(Answered(s, c, a), r, c);
    Flushed(Settled(s, r, c, a), r);
  }

  /** And a client is starved so, step by step: `c` is answered, the batch ends, an idle client `b` asks and is dialled
      for under the number of c's old remote, which connects, and `c` hangs up. */
  lemma StarvedReached(s: State, r: int, c: int, b: int, m: bytes, m2: bytes, f: Fate)
    requires Inv(s) && !s.halted && r in s.fds && s.fds[r] == Linked(c) && c !in s.tab.buf && GoesOn(s, r, c, m, false)
    requires b in s.fds && s.fds[b] == Client && PhaseOf(s, b) == ParsingRequest && b !in s.tab.buf
          && ParseRequest(m2).Ok?
    ensures var s1 := Step(Step(s, UpstreamData(r, m, false, f)), BatchEnd);
            var s2 := Step(s1, Data(b, m2, Fate(true, Later, r)));
            Starved(Step(Step(s2, Dialed(r, true)), Hangup(c)), b)
  {
    hide Inv, Step, Starved, GoesOn, ParseRequest, Enabled;
    var s0 := Step(s, UpstreamData(r, m, false, f));
    StepKeeps(s, UpstreamData(r, m, false, f));
    AnsweredStep(s, r, c, b, m, f);
    var s1 := Step(s0, BatchEnd);
    StepKeeps(s0, BatchEnd);
    FlushedStep(s0);
    var s2 := Step(s1, Data(b, m2, Fate(true, Later, r)));
    StepKeeps(s1, Data(b, m2, Fate(true, Later, r)));
    AskedStep(s1, b, m2, r);
    var s3 := Step(s2, Dialed(r, true));
    StepKeeps(s2, Dialed(r, true));
    DialedStep(s2, r, b);
    StaleUpstream(s3, c, r, b);
  }

  lemma StaleUpstream(s: State, c: int, r: int, b: int)
    requires Inv(s) && !s.halted && c in s.fds && s.fds[c] == Client && c in s.tab.c2r && s.tab.c2r[c] == r
    requires r in s.fds && s.fds[r] == Linked(b) && b != c
    ensures Starved(Step(s, Hangup(c)), b)
  {
    hide Inv, Step, Starved;
    StaleClose(s, c);
  }

  lemma AnsweredStep(s: State, r: int, c: int, b: int, m: bytes, f: Fate)
    requires Inv(s) && !s.halted && r in s.fds && s.fds[r] == Linked(c) && c !in s.tab.buf && GoesOn(s, r, c, m, false)
    requires b in s.fds && s.fds[b] == Client && PhaseOf(s, b) == ParsingRequest
    ensures var s' := Step(s, UpstreamData(r, m, false, f));
            && !s'.halted && c in s'.fds && s'.fds[c] == Client && c in s'.tab.c2r && s'.tab.c2r[c] == r
            && r !in s'.fds && r in s'.closing && b != c && b in s'.fds && s'.fds[b] == Client
            && PhaseOf(s', b) == ParsingRequest && (b in s'.tab.buf ==> b in s.tab.buf)
  {
    hide ServedOk, LifeOk, FdOk, InvBut, Inv, Close, OnMessage, ParseUpstream, LastRequest, Throws;
    LinkedOk(s, r, c);
    Recorded(s, c);
    var s1, u := Hear(s, r, m), UpstreamOf(s, r);
    var response := ParseUpstream(Saved(s.tab.buf, r) + m).value;
    CloseForgotten(Answered(s1, c, Answer(ForwardOf(s1, c), response, u.index, u.asked, u.heard + m)), r, c);
  }

  lemma FlushedStep(s: State)
    requires !s.halted
    ensures var s' := Step(s, BatchEnd);
            && s' == s.(opens := s'.opens, closing := [])
            && forall fd :: fd in s'.opens <==> fd in s.opens && fd !in s.closing
  {
  }

  lemma AskedStep(s: State, b: int, m: bytes, r: int)
    requires !s.halted && b in s.fds && s.fds[b] == Client && PhaseOf(s, b) == ParsingRequest && b !in s.tab.buf
    requires ParseRequest(m).Ok? && r !in s.opens && r !in s.fds
    ensures var s' := Step(s, Data(b, m, Fate(true, Later, r)));
            && s'.fds == s.fds[r := Dialing(b)] && s'.tab.c2r == s.tab.c2r[b := r] && !s'.halted
  {
    hide ParseRequest, Close;
    assert [] + m == m;
  }

  lemma DialedStep(s: State, r: int, b: int)
    requires !s.halted && r in s.fds && s.fds[r] == Dialing(b)
    ensures var s' := Step(s, Dialed(r, true));
            s'.fds == s.fds[r := Linked(b)] && s'.tab == s.tab && !s'.halted
  {
  }

  lemma NotInTableEither(s: State, r: int, c: int)
    requires InvBut(s, r) && IsRemoteOf(s, r, c)
    ensures r in s.opens && (c in s.fds && s.fds[c] == Client ==> c in s.opens && c != r)
    ensures c in s.fds ==> c !in s.closing
  {
  }

  lemma Flushed(s: State, r: int)
    requires r in s.closing && !s.halted
    ensures r !in Step(s, BatchEnd).opens
  {
  }

  // ---- A starved client stays starved ----

  /** Whatever happened, `b`, if it is still there, is as it was and has no remote it had not. */
  ghost predicate Aside(s: State, s': State, b: int) {
    b in s'.fds ==>
      && b in s.fds && s'.fds[b] == s.fds[b] && PhaseOf(s', b) == PhaseOf(s, b)
         && LifeOf(s', b).answers == LifeOf(s, b).answers
      && forall q :: IsRemoteOf(s', q, b) ==> IsRemoteOf(s, q, b)
  }

  lemma ClosedAside(s: State, q: int, b: int)
    ensures Aside(s, Close(s, q), b)
  {
    hide Close;
    CloseShrinks(s, q);
  }

  lemma AsideTwice(s: State, s1: State, s2: State, b: int)
    requires Aside(s, s1, b) && Aside(s1, s2, b)
    ensures Aside(s, s2, b)
  {
  }

  lemma TakeAside(s: State, c: int, request: Request, rest: bytes, b: int)
    requires c != b
    ensures Aside(s, Take(s, c, request, rest), b)
  {
  }

  lemma DialAside(s: State, c: int, request: Request, remote: int, index: nat, b: int)
    requires c != b && remote != b
    ensures Aside(s, Dial(s, c, request, remote, index), b)
  {
  }

  lemma ParsedAside(s: State, c: int, whole: bytes, fate: Fate, b: int)
    requires c != b && b in s.opens
    ensures Aside(s, Parsed(s, c, whole, fate), b)
  {
    hide Close, ParseRequest, Take, Aside, Dial;
    match ParseRequest(whole) {
      case Again => SameAside(s, Parsed(s, c, whole, fate), b);
      case Bad => ClosedAside(s, c, b);
      case Ok(request, rest) =>
        var s1 := Take(s, c, request, rest);
        TakeAside(s, c, request, rest, b);
        TakeParts(s, c, request, rest);
        if !fate.ok {
          ClosedAside(s1, c, b);
        } else if fate.how == Fails || fate.remote in s1.opens {
          var s2 := s1.(tab := s1.tab.(forward := s1.tab.forward[c := request]));
          SameAside(s1, s2, b);
          ClosedAside(s2, c, b);
          AsideTwice(s1, s2, Close(s2, c), b);
        } else {
          DialAside(s1, c, request, fate.remote, |LifeOf(s, c).taken|, b);
        }
        AsideTwice(s, s1, Parsed(s, c, whole, fate), b);
    }
  }

  lemma SameAside(s: State, s': State, b: int)
    requires s'.fds == s.fds && PhaseOf(s', b) == PhaseOf(s, b) && LifeOf(s', b).answers == LifeOf(s, b).answers
    ensures Aside(s, s', b)
  {
  }

  lemma OnMessageAside(s: State, c: int, message: bytes, fate: Fate, b: int)
    requires c != b && b in s.opens
    ensures Aside(s, OnMessage(s, c, message, fate), b)
  {
    hide Parsed;
    ParsedAside(Erased(s, c), c, Saved(s.tab.buf, c) + message, fate, b);
  }

  lemma NextAside(s: State, c: int, fate: Fate, b: int)
    requires c != b && b in s.opens
    ensures Aside(s, Next(s, c, fate), b)
  {
    hide OnMessage, Aside;
    var s1 := s.(tab := s.tab.(state := s.tab.state[c := ParsingRequest]));
    NextIs(s, c, fate);
    SameAside(s, s1, b);
    if c in s1.tab.buf {
      SameAside(s, Erased(s1, c), b);
      OnMessageAside(Erased(s1, c), c, s1.tab.buf[c], fate, b);
      AsideTwice(s, Erased(s1, c), Next(s, c, fate), b);
    }
  }

  /** After the answer: the client is closed, or its remote is and it asks again. */
  lemma SettlingAside(s: State, r: int, c: int, fate: Fate, b: int)
    requires c != b && b in s.opens
    ensures Aside(s, Next(CloseRemote(s, r), c, fate), b)
  {
    hide Close, Next, Aside;
    var s1 := CloseRemote(s, r);
    SameAside(s, Forgotten(s, r), b);
    ClosedAside(Forgotten(s, r), r, b);
    CloseShrinks(Forgotten(s, r), r);
    NextAside(s1, c, fate, b);
    AsideTwice(s, Forgotten(s, r), s1, b);
    AsideTwice(s, s1, Next(s1, c, fate), b);
  }

  lemma UpstreamAside(s: State, r: int, c: int, message: bytes, broken: bool, fate: Fate, b: int)
    requires c != b && b in s.opens
    ensures Aside(s, OnRemoteMessage(s, r, c, message, broken, fate), b)
  {
    hide Close, ParseUpstream, LastRequest, Throws, Aside, Next, CloseRemote, PhaseOf, LifeOf;
    var s1 := Hear(s, r, message);
    var whole, u := Saved(s.tab.buf, r) + message, UpstreamOf(s, r);
    var s' := OnRemoteMessage(s, r, c, message, broken, fate);
    HearAside(s, r, message, b);
    match ParseUpstream(whole) {
      case Again =>
        HeardAside(s1, s', b);
        AsideTwice(s, s1, s', b);
      case Bad =>
        ClosedAside(s1, r, b);
        AsideTwice(s, s1, s', b);
      case Ok(response, _) =>
        var s2 := Answered(s1, c, Answer(ForwardOf(s1, c), response, u.index, u.asked, u.heard + message));
        AnsweredAside(s1, c, Answer(ForwardOf(s1, c), response, u.index, u.asked, u.heard + message), b);
        AsideTwice(s, s1, s2, b);
        var s3 := if broken then Close(s2, c) else s2;
        CloseShrinks(s2, c);
        ClosedAside(s2, c, b);
        AsideSelf(s2, b);
        AsideTwice(s, s2, s3, b);
        ClosedAside(s3, c, b);
        SettlingAside(s3, r, c, fate, b);
        HaltAside(s3, b);
        AsideTwice(s, s3, s', b);
    }
  }

  lemma AsideSelf(s: State, b: int)
    ensures Aside(s, s, b)
  {
  }

  lemma HearAside(s: State, r: int, message: bytes, b: int)
    ensures Aside(s, Hear(s, r, message), b)
  {
  }

  lemma HeardAside(s: State, s': State, b: int)
    requires s' == s.(tab := s.tab.(buf := s'.tab.buf))
    ensures Aside(s, s', b)
  {
  }

  lemma AnsweredAside(s: State, c: int, a: Answer, b: int)
    requires c != b
    ensures Aside(s, Answered(s, c, a), b)
  {
  }

  lemma HaltAside(s: State, b: int)
    ensures Aside(s, Halt(s), b)
  {
  }

  lemma ConnectAside(s: State, r: int, c: int, b: int)
    requires c != b && r != b
    ensures Aside(s, OnRemoteConnect(s, r, c), b)
  {
  }

  lemma FailedAside(s: State, r: int, c: int, b: int)
    ensures Aside(s, DialFailed(s.(fds := s.fds - {r}), r, c), b)
  {
    hide Close, Aside;
    var s1 := s.(fds := s.fds - {r});
    LetAside(s, r, b);
    ClosedAside(s1, c, b);
    AsideTwice(s, s1, Close(s1, c), b);
    SameAside(Close(s1, c), Queue(Close(s1, c), r), b);
    AsideTwice(s, Close(s1, c), Queue(Close(s1, c), r), b);
  }

  lemma LetAside(s: State, r: int, b: int)
    ensures Aside(s, s.(fds := s.fds - {r}), b)
  {
  }

  lemma AcceptedAside(s: State, c: int, b: int)
    requires c != b
    ensures Aside(s, Accepted(s, c), b)
  {
  }

  lemma NotIts(s: State, r: int, b: int)
    requires Starved(s, b) && r in s.fds && !s.fds[r].Client?
    ensures s.fds[r].client != b && r != b
  {
    assert !IsRemoteOf(s, r, b);
  }

  lemma BufferedAside(s: State, c: int, message: bytes, fate: Fate)
    requires PhaseOf(s, c) == ParsingResponse
    ensures Aside(s, OnMessage(s, c, message, fate), c)
  {
    hide Parsed;
  }

  lemma ReceivedAside(s: State, c: int, message: bytes, b: int)
    ensures Aside(s, Received(s, c, message), b)
  {
  }

  lemma DataAside(s: State, c: int, message: bytes, fate: Fate, b: int)
    requires Starved(s, b) && b in s.opens
    ensures Aside(s, OnMessage(Received(s, c, message), c, message, fate), b)
  {
    hide Aside, OnMessage, LifeOf;
    var s1 := Received(s, c, message);
    ReceivedAside(s, c, message, b);
    if c != b {
      OnMessageAside(s1, c, message, fate, b);
    } else {
      BufferedAside(s1, c, message, fate);
    }
    AsideTwice(s, s1, OnMessage(s1, c, message, fate), b);
  }

  lemma FlushAside(s: State, b: int)
    ensures Aside(s, Step(s, BatchEnd), b)
  {
  }

  lemma StepAside(s: State, e: Event, b: int)
    requires Starved(s, b) && b in s.opens
    ensures Aside(s, Step(s, e), b)
  {
    hide Aside, Close, OnMessage, OnRemoteMessage, OnRemoteConnect, DialFailed, LifeOf, Accepted;
    AsideSelf(s, b);
    if !s.halted && Enabled(s, e) {
      match e {
        case Data(c, message, fate) => DataAside(s, c, message, fate, b);
        case UpstreamData(r, message, broken, fate) =>
          NotIts(s, r, b);
          UpstreamAside(s, r, s.fds[r].client, message, broken, fate, b);
        case Dialed(r, ok) =>
          NotIts(s, r, b);
          ConnectAside(s, r, s.fds[r].client, b);
          FailedAside(s, r, s.fds[r].client, b);
        case Hangup(fd) => ClosedAside(s, fd, b);
        case Accept(c) => AcceptedAside(s, c, b);
        case BatchEnd => FlushAside(s, b);
      }
    }
  }

  /** Nothing but its own end changes that: no answer ever comes. */
  lemma StarvedStays(s: State, e: Event, b: int)
    requires Inv(s) && Starved(s, b)
    ensures var s' := Step(s, e);
            b in s'.fds ==> Starved(s', b) && LifeOf(s', b).answers == LifeOf(s, b).answers
  {
    hide FdOk, Step, LifeOf;
    StepAside(s, e, b);
  }

  /** So over any run for as long as it stays connected. */
  lemma {:induction false} StarvedForEver(events: seq<Event>, more: seq<Event>, b: int)
    requires Starved(Run(events), b) && forall i :: 0 <= i <= |more| ==> StillThere(events, more, i, b)
    ensures Starved(Run(events + more), b) && LifeOf(Run(events + more), b).answers == LifeOf(Run(events), b).answers
    decreases |more|
  {
    hide Starved, Step, Inv, LifeOf;
    if more == [] {
      assert events + more == events;
    } else {
      var front, n := more[..|more| - 1], |more| - 1;
      forall i | 0 <= i <= n ensures StillThere(events, front, i, b) {
        assert StillThere(events, more, i, b) && front[..i] == more[..i];
      }
      StarvedForEver(events, front, b);
      var es := events + more;
      assert es[..|es| - 1] == events + front && es[|es| - 1] == more[n];
      RunKeeps(events + front);
      StarvedStays(Run(events + front), more[n], b);
      assert StillThere(events, more, |more|, b) && more[..|more|] == more;
    }
  }

  predicate StillThere(events: seq<Event>, more: seq<Event>, i: nat, b: int)
    requires i <= |more|
  {
    b in Run(events + more[..i]).fds
  }

  // ---- When every waiting client has its upstream ----

  predicate Attended(s: State, c: int) { c in s.tab.c2r && IsRemoteOf(s, s.tab.c2r[c], c) }

  /** Nobody's record is a stranger's number, and every client that waits has its upstream. */
  ghost predicate Steady(s: State) {
    && (forall c :: c in s.tab.c2r ==> OwnRecord(s, c))
    && (forall c :: c in s.fds && s.fds[c] == Client && PhaseOf(s, c) == ParsingResponse ==> Attended(s, c))
  }

  /** No live client but `c` has this number on record. */
  predicate Unrecorded(s: State, fd: int, c: int) { forall k :: k in s.tab.c2r && k != c ==> s.tab.c2r[k] != fd }

  /** Whether the bytes are a request for which an upstream will be under way; its number is then fate.remote. */
  predicate Dials(s: State, whole: bytes, fate: Fate) {
    ParseRequest(whole).Ok? && fate.ok && fate.how == Later && fate.remote !in s.opens
  }

  /** Whether this is an answer after which the client goes on with its next request. */
  predicate GoesOn(s: State, r: int, c: int, message: bytes, broken: bool) {
    && ParseUpstream(Saved(s.tab.buf, r) + message).Ok? && !broken
    && !Throws(ForwardOf(s, c)) && !LastRequest(ForwardOf(s, c))
  }

  /** The next buffered request, if there is one. */
  predicate FreshNext(s: State, c: int, fate: Fate) {
    c in s.tab.buf && Dials(s, s.tab.buf[c], fate) ==> Unrecorded(s, fate.remote, c)
  }

  /** The number the kernel hands out for this event, if it does, is on record for no live client but the one it
      is to serve. */
  predicate NoReuse(s: State, e: Event)
    requires Enabled(s, e)
  {
    match e
    case Accept(c) => Unrecorded(s, c, c)
    case Data(c, message, fate) =>
      PhaseOf(s, c) == ParsingRequest && Dials(s, Saved(s.tab.buf, c) + message, fate) ==> Unrecorded(s, fate.remote, c)
    case UpstreamData(r, message, broken, fate) =>
      GoesOn(s, r, s.fds[r].client, message, broken) ==> FreshNext(s, s.fds[r].client, fate)
    case _ => true
  }

  lemma SteadyLess(s: State, s': State, gone: set<int>)
    requires Steady(s) && s'.fds == s.fds - gone
    requires forall c :: c in s'.tab.c2r ==> c in s.tab.c2r && s'.tab.c2r[c] == s.tab.c2r[c]
    requires forall c :: c in s.tab.c2r && c in s'.fds ==> c in s'.tab.c2r
    requires forall c :: c in s'.fds && PhaseOf(s', c) == ParsingResponse ==> PhaseOf(s, c) == ParsingResponse
    requires forall r, c :: r in gone && IsRemoteOf(s, r, c) && c in s'.fds ==> PhaseOf(s', c) == ParsingRequest
    ensures Steady(s')
  {
    forall c | c in s'.tab.c2r ensures OwnRecord(s', c) {
      assert OwnRecord(s, c);
    }
    forall c | c in s'.fds && s'.fds[c] == Client && PhaseOf(s', c) == ParsingResponse ensures Attended(s', c) {
      assert Attended(s, c);
    }
  }

  /** As far as records, descriptors and the phases of all but `c` go. */
  ghost predicate Alike(s: State, s': State, c: int) {
    && s'.fds == s.fds && s'.opens == s.opens && s'.tab.c2r == s.tab.c2r
    && forall k :: k != c ==> PhaseOf(s', k) == PhaseOf(s, k)
  }

  lemma ClientGone(s: State, s1: State, c: int)
    requires Steady(s) && Alike(s, s1, c) && c in s.fds && s.fds[c] == Client && (c in s.tab.c2r ==> s.tab.c2r[c] != c)
    ensures Steady(Close(s1, c))
  {
    hide Close;
    ConfinedClose(s1, c);
    CloseShrinks(s1, c);
    SteadyLess(s, Close(s1, c), Reach(s1, c));
  }

  lemma PairGoneSteady(s: State, s1: State, queued: seq<int>, q: int, c: int, forget: bool)
    requires Steady(s) && Alike(s, s1, c) && IsRemoteOf(s, q, c) && c in s.fds && s.fds[c] == Client
    ensures Steady(WithoutPair(s1, queued, q, c, forget))
  {
    var s' := WithoutPair(s1, queued, q, c, forget);
    assert s'.fds == s.fds - {q, c};
    SteadyLess(s, s', {q, c});
  }

  lemma DialSteady(s: State, s1: State, c: int, request: Request, remote: int, index: nat)
    requires Steady(s) && Alike(s, s1, c) && c in s.fds && s.fds[c] == Client
    requires remote !in s.opens && (forall fd :: fd in s.fds ==> fd in s.opens)
    requires forall k :: k in s.tab.c2r ==> k in s.fds
    requires forall r :: !IsRemoteOf(s, r, c)
    ensures Steady(Dial(s1, c, request, remote, index)) <==> Unrecorded(s, remote, c)
  {
    var s' := Dial(s1, c, request, remote, index);
    if Unrecorded(s, remote, c) {
      forall k | k in s'.tab.c2r ensures OwnRecord(s', k) {
        assert k in s.tab.c2r ==> OwnRecord(s, k);
      }
      forall k | k in s'.fds && s'.fds[k] == Client && PhaseOf(s', k) == ParsingResponse ensures Attended(s', k) {
        assert k != c ==> Attended(s, k);
      }
    } else {
      var k :| k in s.tab.c2r && k != c && s.tab.c2r[k] == remote;
      assert !OwnRecord(s', k);
    }
  }

  lemma SteadyAlike(s: State, s': State)
    requires Steady(s) && Alike(s, s', -1) && PhaseOf(s', -1) == PhaseOf(s, -1)
    ensures Steady(s')
  {
    SteadyLess(s, s', {});
  }

  lemma ParsedSteady(s: State, c: int, whole: bytes, fate: Fate)
    requires InvBut(s, c) && Steady(s) && c in s.fds && s.fds[c] == Client && PhaseOf(s, c) == ParsingRequest
    ensures Steady(Parsed(s, c, whole, fate)) <==> (Dials(s, whole, fate) ==> Unrecorded(s, fate.remote, c))
  {
    hide Close, ParseRequest, Take, Steady, Unrecorded, Dial, FdOk;
    match ParseRequest(whole) {
      case Again => SteadyAlike(s, Parsed(s, c, whole, fate));
      case Bad => ClientGone(s, s, c);
      case Ok(request, rest) =>
        var s1 := Take(s, c, request, rest);
        TakeAlike(s, c, request, rest);
        NoRemote(s, c, c);
        if !fate.ok {
          ClientGone(s, s1, c);
        } else if fate.how == Fails || fate.remote in s1.opens {
          ClientGone(s, s1.(tab := s1.tab.(forward := s1.tab.forward[c := request])), c);
        } else {
          DialSteady(s, s1, c, request, fate.remote, |LifeOf(s, c).taken|);
        }
    }
  }

  lemma TakeAlike(s: State, c: int, request: Request, rest: bytes)
    ensures Alike(s, Take(s, c, request, rest), c)
  {
  }

  lemma DataSteady(s: State, c: int, message: bytes, fate: Fate)
    requires Inv(s) && Steady(s) && c in s.fds && s.fds[c] == Client
    ensures Steady(OnMessage(Received(s, c, message), c, message, fate))
       <==> (PhaseOf(s, c) == ParsingRequest && Dials(s, Saved(s.tab.buf, c) + message, fate) ==>
           Unrecorded(s, fate.remote, c))
  {
    hide FdOk, InvBut, Inv, Parsed, ServedOk, LifeOk, ParseRequest, Steady;
    var s1 := Erased(Received(s, c, message), c);
    SteadyAlike(s, s1);
    if PhaseOf(s, c) == ParsingResponse {
      SteadyAlike(s, OnMessage(Received(s, c, message), c, message, fate));
    } else {
      Any(s, c);
      AroundKeeps(s, s1, c, c);
      ParsedSteady(s1, c, Saved(s.tab.buf, c) + message, fate);
    }
  }

  /** What answering leaves, before the next request. */
  lemma SettledSteady(s: State, s1: State, r: int, c: int, a: Answer)
    requires Inv(s) && Steady(s) && Alike(s, s1, c) && r in s.fds && s.fds[r] == Linked(c)
          && s1.tab.state == s.tab.state
    ensures var s' := Settled(s1, r, c, a); Steady(s') && s'.opens == s.opens && s'.tab.c2r == s.tab.c2r
  {
    hide Close, Inv, Steady;
    CloseForgotten(Answered(s1, c, a), r, c);
    var s' := Settled(s1, r, c, a);
    SteadyLess(s, s', {r});
  }

  lemma HearKeeps(s: State, r: int, c: int, message: bytes)
    requires Inv(s) && r in s.fds && s.fds[r] == Linked(c)
    ensures var s1 := Hear(s, r, message);
            && s1 == s.(ups := s1.ups, tab := s.tab.(buf := s.tab.buf - {r})) && InvBut(s1, r)
  {
    hide ServedOk, LifeOk, FdOk, InvBut, Inv;
    HeardKeeps(s, Hear(s, r, message), r, c);
  }

  lemma UpstreamSteady(s: State, r: int, c: int, message: bytes, broken: bool, fate: Fate)
    requires Inv(s) && Steady(s) && r in s.fds && s.fds[r] == Linked(c)
    ensures Steady(OnRemoteMessage(s, r, c, message, broken, fate))
       <==> (GoesOn(s, r, c, message, broken) ==> FreshNext(s, c, fate))
  {
    hide ServedOk, LifeOk, FdOk, InvBut, Inv, Close, ParseUpstream, LastRequest, Throws, Steady, FreshNext;
    hide Hear, Next, CloseRemote, Answered, Halt, ForwardOf, LifeOf;
    LinkedOk(s, r, c);
    ClientLife(s, c);
    Recorded(s, c);
    HearKeeps(s, r, c, message);
    var u, s1, whole := UpstreamOf(s, r), Hear(s, r, message), UpstreamOf(s, r).heard + message;
    match ParseUpstream(whole) {
      case Again => SteadyAlike(s, OnRemoteMessage(s, r, c, message, broken, fate));
      case Bad =>
        RecordedRemoteStep(s1, r, c);
        PairGoneSteady(s, s1, [r] + [c], r, c, true);
      case Ok(response, _) =>
        var a := Answer(ForwardOf(s1, c), response, u.index, u.asked, whole);
        SameForward(s, s1, c);
        AnswerTaken(LifeOf(s, c), Saved(s.tab.buf, c), a);
        AnswerSteady(s, s1, r, c, a, broken, fate);
    }
  }

  lemma SameForward(s: State, s1: State, c: int)
    requires s1.tab.forward == s.tab.forward
    ensures ForwardOf(s1, c) == ForwardOf(s, c) && (c in s.tab.forward ==> ForwardOf(s, c) == s.tab.forward[c])
  {
  }

  lemma AnswerSteady(s: State, s1: State, r: int, c: int, a: Answer, broken: bool, fate: Fate)
    requires Inv(s) && Steady(s) && r in s.fds && s.fds[r] == Linked(c)
    requires s1 == s.(ups := s1.ups, tab := s.tab.(buf := s.tab.buf - {r})) && InvBut(s1, r)
    requires LifeOk(LifeOf(s, c).(answers := LifeOf(s, c).answers + [a]), ParsingRequest, Saved(s.tab.buf, c))
    ensures var s2 := Answered(s1, c, a);
            var s3 := if broken then Close(s2, c) else s2;
            var request := ForwardOf(s3, c);
            var s' := if Throws(request) then Halt(s3)
                      else if LastRequest(request) then Close(s3, c)
                      else Next(CloseRemote(s3, r), c, fate);
            Steady(s') <==>
              (!broken && !Throws(ForwardOf(s, c)) && !LastRequest(ForwardOf(s, c)) ==> FreshNext(s, c, fate))
  {
    hide ServedOk, LifeOk, FdOk, InvBut, Inv, Close, OnMessage, LastRequest, Steady, Unrecorded, Dials, Next;
    LinkedOk(s, r, c);
    Recorded(s, c);
    var s2 := Answered(s1, c, a);
    if broken {
      ClosedForgets(s2, r, c);
      HaltSteady(Close(s2, c));
    } else if Throws(ForwardOf(s2, c)) {
      HaltSteady(s2);
    } else if LastRequest(ForwardOf(s2, c)) {
      ClientGone(s, s2, c);
    } else {
      SettledKeeps(s1, r, c, a);
      SettledSteady(s, s1, r, c, a);
      NextIs(CloseRemote(s2, r), c, fate);
      NextSteady(Settled(s1, r, c, a), c, fate);
      SameNumbers(s, Settled(s1, r, c, a), c, fate);
    }
  }

  lemma SameNumbers(s: State, s1: State, c: int, fate: Fate)
    requires s1.opens == s.opens && s1.tab.c2r == s.tab.c2r
    ensures forall whole :: Dials(s1, whole, fate) == Dials(s, whole, fate)
    ensures Unrecorded(s1, fate.remote, c) == Unrecorded(s, fate.remote, c)
  {
  }

  lemma HaltSteady(s: State)
    ensures Steady(Halt(s))
  {
  }

  lemma NextSteady(s: State, c: int, fate: Fate)
    requires InvBut(s, c) && Steady(s) && c in s.fds && s.fds[c] == Client && PhaseOf(s, c) == ParsingRequest
    requires LifeOk(LifeOf(s, c), ParsingRequest, Saved(s.tab.buf, c))
    ensures var s' := if c in s.tab.buf then OnMessage(Erased(s, c), c, s.tab.buf[c], fate) else s;
            Steady(s') <==> FreshNext(s, c, fate)
  {
    hide ServedOk, LifeOk, FdOk, InvBut, Inv, Parsed, Steady, Dials, Unrecorded;
    if c in s.tab.buf {
      var whole := s.tab.buf[c];
      var s1 := Erased(s, c);
      AroundKeeps(s, s1, c, c);
      SteadyAlike(s, s1);
      assert [] + whole == whole && Erased(s1, c) == s1 by { assert s.tab.buf - {c} - {c} == s.tab.buf - {c}; }
      SameNumbers(s, s1, c, fate);
      ParsedSteady(s1, c, whole, fate);
    }
  }

  lemma AcceptSteady(s: State, c: int)
    requires Inv(s) && Steady(s) && c !in s.opens
    ensures Steady(Accepted(s, c)) <==> Unrecorded(s, c, c)
  {
    hide FdOk;
    var s' := Accepted(s, c);
    if Unrecorded(s, c, c) {
      forall k | k in s'.tab.c2r ensures OwnRecord(s', k) {
        assert OwnRecord(s, k);
      }
      forall k | k in s'.fds && s'.fds[k] == Client && PhaseOf(s', k) == ParsingResponse ensures Attended(s', k) {
        assert Attended(s, k);
      }
    } else {
      var k :| k in s.tab.c2r && k != c && s.tab.c2r[k] == c;
      assert !OwnRecord(s', k);
    }
  }

  lemma ConnectSteady(s: State, r: int, c: int)
    requires Steady(s) && r in s.fds && s.fds[r] == Dialing(c)
    ensures Steady(OnRemoteConnect(s, r, c))
  {
    var s' := OnRemoteConnect(s, r, c);
    forall k | k in s'.tab.c2r ensures OwnRecord(s', k) {
      assert OwnRecord(s, k);
    }
    forall k | k in s'.fds && s'.fds[k] == Client && PhaseOf(s', k) == ParsingResponse ensures Attended(s', k) {
      assert Attended(s, k);
    }
  }

  lemma FailedSteady(s: State, r: int, c: int)
    requires Inv(s) && Steady(s) && r in s.fds && s.fds[r] == Dialing(c)
    ensures Steady(DialFailed(s.(fds := s.fds - {r}), r, c))
  {
    hide FdOk, Inv, Steady, DialFailed, InvBut;
    FdHere(s, r);
    OnRecordHere(s, r, c);
    DialFailedStep(s.(fds := s.fds - {r}), r, c);
    assert s.fds - {r} - {r} - {c} == s.fds - {r} - {c};
    Recorded(s, c);
    PairGoneSteady(s, s, [c] + [r], r, c, false);
  }

  lemma HangupSteady(s: State, fd: int)
    requires Inv(s) && Steady(s) && fd in s.fds && !s.fds[fd].Dialing?
    ensures Steady(Close(s, fd))
  {
    hide FdOk, Inv, Steady, Close, InvBut;
    if s.fds[fd].Client? {
      Recorded(s, fd);
      ClientGone(s, s, fd);
    } else {
      var c := s.fds[fd].client;
      FdHere(s, fd);
      OnRecordHere(s, fd, c);
      Recorded(s, c);
      RecordedRemoteStep(s, fd, c);
      PairGoneSteady(s, s, [fd] + [c], fd, c, true);
    }
  }

  lemma Recorded(s: State, c: int)
    requires Inv(s)
    ensures c in s.tab.c2r ==> c in s.fds && s.fds[c] == Client && s.tab.c2r[c] != c
  {
  }

  /** One step keeps every waiting client attended and every record its owner's, if and only if no number
      handed out in it is on record for another live client. */
  lemma StepSteadyIff(s: State, e: Event)
    requires Inv(s) && Steady(s) && !s.halted && Enabled(s, e)
    ensures Steady(Step(s, e)) <==> NoReuse(s, e)
  {
    hide Inv, Steady, Dials, GoesOn, FreshNext, Unrecorded, OnMessage, OnRemoteMessage, OnRemoteConnect, DialFailed,
        Close, Accepted;
    match e {
      case Accept(c) => AcceptSteady(s, c);
      case Data(c, message, fate) => DataSteady(s, c, message, fate);
      case Dialed(r, ok) =>
        if ok {
          ConnectSteady(s, r, s.fds[r].client);
        } else {
          FailedSteady(s, r, s.fds[r].client);
        }
      case UpstreamData(r, message, broken, fate) => UpstreamSteady(s, r, s.fds[r].client, message, broken, fate);
      case Hangup(fd) => HangupSteady(s, fd);
      case BatchEnd => SteadyFlush(s);
    }
  }

  lemma SteadyFlush(s: State)
    requires Steady(s) && !s.halted
    ensures Steady(Step(s, BatchEnd))
  {
    SteadyLess(s, Step(s, BatchEnd), {});
  }

  predicate FreshAt(events: seq<Event>, i: nat)
    requires i < |events|
  {
    var s := Run(events[..i]);
    !s.halted && Enabled(s, events[i]) ==> NoReuse(s, events[i])
  }

  /** No number was handed out while on record for another live client. */
  ghost predicate FreshRun(events: seq<Event>) { forall i :: 0 <= i < |events| ==> FreshAt(events, i) }

  /** Over runs: after every prefix each waiting client has its upstream, the one on record, and no record is
      a stranger's, if and only if no number was ever handed out while on record for another live client. The
      connect here is one attempt under one number. HttpGateway's, by host name, tries addresses in turn, and if all
      of them fail at once returns its placeholder all the same: the tables are then written for a client already
      closed, which is not modelled. */
  lemma {:induction false} RunSteadyIff(events: seq<Event>)
    ensures (forall i :: 0 <= i <= |events| ==> Steady(Run(events[..i]))) <==> FreshRun(events)
    decreases |events|
  {
    hide Steady, FreshAt, Step;
    if events == [] {
      StartSteady();
      assert events[..0] == events;
    } else {
      var front, n := events[..|events| - 1], |events| - 1;
      RunSteadyIff(front);
      assert forall i :: 0 <= i <= n ==> front[..i] == events[..i];
      assert events[..n + 1] == events && front == events[..n];
      forall i | 0 <= i < n ensures FreshAt(front, i) == FreshAt(events, i) {
        SameFresh(front, events, i);
      }
      assert FreshRun(events) <==> FreshRun(front) && FreshAt(events, n);
      if Steady(Run(front)) {
        LastSteady(events);
      }
    }
  }

  lemma SameFresh(front: seq<Event>, events: seq<Event>, i: nat)
    requires i < |front| && front <= events
    ensures FreshAt(front, i) == FreshAt(events, i)
  {
    assert front[..i] == events[..i];
  }

  lemma LastSteady(events: seq<Event>)
    requires events != [] && Steady(Run(events[..|events| - 1]))
    ensures Steady(Run(events)) <==> FreshAt(events, |events| - 1)
  {
    hide Steady, NoReuse, Inv, Step;
    var front, last := events[..|events| - 1], events[|events| - 1];
    var s := Run(front);
    RunKeeps(front);
    if s.halted || !Enabled(s, last) {
      Refused(s, last);
    } else {
      StepSteadyIff(s, last);
    }
  }

  lemma Refused(s: State, e: Event)
    requires s.halted || !Enabled(s, e)
    ensures Step(s, e) == s
  {
  }

  lemma StartSteady()
    ensures Steady(Start)
  {
  }

  /** So, in such a run, a client that waits for an answer has exactly one upstream. */
  lemma ExactlyOneUpstream(events: seq<Event>, c: int)
    requires FreshRun(events) && c in Run(events).fds && Run(events).fds[c] == Client
          && PhaseOf(Run(events), c) == ParsingResponse
    ensures var s := Run(events); exists r :: IsRemoteOf(s, r, c) && forall q :: IsRemoteOf(s, q, c) ==> q == r
  {
    hide Run, Inv;
    RunSteadyIff(events);
    assert events[..|events|] == events;
    OneUpstream(events);
    var s := Run(events);
    assert Attended(s, c);
    assert IsRemoteOf(s, s.tab.c2r[c], c);
  }

  lemma OnCloseStep(s: State, c: int)
    requires c in s.tab.c2r
    ensures OnClose(s, c) == Close(Cleared(s, c), s.tab.c2r[c])
  {
    hide Close;
  }
}
