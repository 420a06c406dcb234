/** Byte tunnels: a client on one side, the upstream connection opened for it on the other
    (ITunnelLike, Proxy, Remote), over the server's write, close and dispatch. */
module Tunnels {
  import opened Bytes
  import opened Bufferables
  import Output

  datatype ConnectState = B4Connect | Connecting | Connected

  /** Which callbacks a descriptor is watched with: a client's, a remote's CONNECT wrapper, a
      remote's READ and CLOSE, or none. */
  datatype Role = Client | Dialing(client: int) | Linked(client: int) | Bare

  /** An open connection: what the kernel took and what it is owed, what was owed under this
      number before the connection existed, and what the kernel delivered. */
  datatype Wire = Wire(channel: Output.Channel, stale: bytes, rcvd: bytes)

  /** The tunnel's own tables. */
  datatype Tables = Tables(c2r: map<int, int>, r2c: map<int, int>, state: map<int, ConnectState>, buf: map<int, bytes>)

  /** The server's. */
  datatype Server = Server(
    fds: map<int, Role>, closing: seq<int>, opens: set<int>, wires: map<int, Wire>, c2s: map<int, int>, sessions: int)

  /** `withId` for Remote, which announces each client's session id upstream; not for Proxy. */
  datatype State = State(withId: bool, srv: Server, tab: Tables)

  function Start(withId: bool): State {
    State(withId, Server(map[], [], {}, map[], map[], 0), Tables(map[], map[], map[], map[]))
  }

  function WireOf(srv: Server, fd: int): Wire {
    if fd in srv.wires then srv.wires[fd] else Wire(Output.Channel([], Output.Nothing), [], [])
  }

  function StateOf(tab: Tables, client: int): ConnectState {
    if client in tab.state then tab.state[client] else B4Connect
  }

  function Id(srv: Server, client: int): nat {
    if client in srv.c2s && srv.c2s[client] >= 0 then srv.c2s[client] else 0
  }

  // ---- Moves of the server alone ----

  /** socket() or accept() hands out `fd`; bytes still owed under that number stay owed. */
  function OpenFd(srv: Server, fd: int): Server {
    var w := WireOf(srv, fd).channel.waiting;
    srv.(opens := srv.opens + {fd}, wires := srv.wires[fd := Wire(Output.Channel([], w), Output.Owed(w), [])])
  }

  function SetChannel(srv: Server, fd: int, c: Output.Channel): Server {
    srv.(wires := srv.wires[fd := WireOf(srv, fd).(channel := c)])
  }

  /** _write_buf.erase(fd). */
  function Dry(srv: Server, fd: int): Server {
    SetChannel(srv, fd, WireOf(srv, fd).channel.(waiting := Output.Nothing))
  }

  function Watch(srv: Server, fd: int, role: Role): Server {
    srv.(fds := srv.fds[fd := role])
  }

  function AutoRewatch(srv: Server, fd: int): Server {
    if fd in srv.fds then srv else Watch(srv, fd, Bare)
  }

  /** EventManager::unwatch under ClientServer's: the session goes with the client. */
  function Unwatch(srv: Server, fd: int): Server {
    if fd in srv.fds then srv.(fds := srv.fds - {fd}, c2s := srv.c2s - {fd}) else srv
  }

  function Queue(srv: Server, fd: int): Server { srv.(closing := srv.closing + [fd]) }

  // ---- Moves of the tunnel alone ----

  function EraseInfo(tab: Tables, client: int): Tables {
    var t := tab.(state := tab.state - {client}, buf := tab.buf - {client});
    if client in tab.c2r then t.(r2c := tab.r2c - {tab.c2r[client]}, c2r := tab.c2r - {client}) else t
  }

  function Register(tab: Tables, client: int, remote: int): Tables {
    tab.(c2r := tab.c2r[client := remote], r2c := tab.r2c[remote := client])
  }

  // ---- close(), and the callbacks it calls ----

  lemma Fewer(fds: map<int, Role>, fd: int)
    requires fd in fds
    ensures |fds - {fd}| < |fds|
  {
    assert fds.Keys == (fds - {fd}).Keys + {fd};
  }

  function Close(s: State, fd: int, force: bool): (r: State)
    ensures |r.srv.fds| <= |s.srv.fds| && r.withId == s.withId
    decreases |s.srv.fds|, 0
  {
    var srv := Dry(s.srv, fd);
    if fd !in s.srv.fds then s.(srv := if force then Queue(srv, fd) else srv)
    else
      Fewer(s.srv.fds, fd);
      var off := Unwatch(srv, fd);
      match s.srv.fds[fd]
      case Bare => s.(srv := Queue(off, fd))
      case Client => OnClose(s.(srv := Queue(off, fd)), fd)
      case Linked(client) => OnRemoteClose(s.(srv := Queue(off, fd)), client)
      case Dialing(client) =>
        // unwatch() tells the CONNECT wrapper GAME_OVER before the descriptor is queued
        var s' := DialFailed(s.(srv := off), fd, client);
        s'.(srv := Queue(s'.srv, fd))
  }

  function OnClose(s: State, client: int): (r: State)
    ensures |r.srv.fds| <= |s.srv.fds| && r.withId == s.withId
    decreases |s.srv.fds|, 1
  {
    if client !in s.tab.c2r then s else Close(s.(tab := EraseInfo(s.tab, client)), s.tab.c2r[client], false)
  }

  function OnRemoteClose(s: State, client: int): (r: State)
    ensures |r.srv.fds| <= |s.srv.fds| && r.withId == s.withId
    decreases |s.srv.fds|, 1
  {
    if client !in s.tab.c2r then s else Close(s.(tab := EraseInfo(s.tab, client)), client, false)
  }

  /** on_remote_connect told of a failure, then the wrapper's close(remote, true). */
  function DialFailed(s: State, remote: int, client: int): (r: State)
    ensures |r.srv.fds| <= |s.srv.fds| && r.withId == s.withId
    decreases |s.srv.fds|, 2
  {
    Close(Close(s.(tab := EraseInfo(s.tab, client)), client, false), remote, true)
  }

  // ---- write() ----

  function Put(s: State, fd: int, c: Output.Channel, end: Output.End): State {
    var s1 := s.(srv := SetChannel(s.srv, fd, c));
    match end
    case Blocked => s1.(srv := AutoRewatch(s1.srv, fd))
    case Broken => Close(s1, fd, false)
    case _ => s1
  }

  function Write(s: State, fd: int, data: bytes, answers: seq<Output.Answer>): State {
    var (c, end) := Output.Write(WireOf(s.srv, fd).channel, data, answers);
    Put(s, fd, c, end)
  }

  /** The EPOLLOUT branch: finish what is owed, then update the interest set. */
  function Writable(s: State, fd: int, answers: seq<Output.Answer>): State {
    var (c, end) := Output.Finish(WireOf(s.srv, fd).channel, answers);
    var s1 := if WireOf(s.srv, fd).channel.waiting.Nothing? then s else Put(s, fd, c, end);
    if end == Output.Done then s1.(srv := AutoRewatch(s1.srv, fd)) else s1
  }

  // ---- The tunnel's callbacks ----

  /** _c2r[client]; operator[] makes a zero. */
  function RemoteFor(tab: Tables, client: int): int {
    if client in tab.c2r then tab.c2r[client] else 0
  }

  function OnMessage(s: State, client: int, message: bytes, answers: seq<Output.Answer>): State {
    var whole := Saved(s.tab.buf, client) + message;
    if StateOf(s.tab, client) != Connected then s.(tab := s.tab.(buf := s.tab.buf[client := whole]))
    else
      var remote := RemoteFor(s.tab, client);
      Write(s.(tab := s.tab.(buf := s.tab.buf - {client}, c2r := s.tab.c2r[client := remote])), remote, whole, answers)
  }

  function SendId(s: State, remote: int, client: int, answers: seq<Output.Answer>): State {
    if s.withId then Write(s, remote, BigEndian(4, Id(s.srv, client)), answers) else s
  }

  /** on_remote_connect told OK: the session id first if there is one to send, then what was buffered. */
  function RemoteConnected(s: State, remote: int, client: int, idAnswers: seq<Output.Answer>,
      answers: seq<Output.Answer>): State
  {
    if s.withId && client !in s.srv.c2s then s
    else
      var s1 := SendId(s, remote, client, idAnswers);
      var s2 := s1.(tab := s1.tab.(state := s1.tab.state[client := Connected]));
      if client in s2.tab.buf then
        OnMessage(s2.(tab := s2.tab.(buf := s2.tab.buf - {client})), client, s2.tab.buf[client], answers)
      else s2
  }

  // ---- Events ----

  datatype How = Fails | AtOnce | Later

  datatype Event =
    | Accept(client: int, remote: int, how: How, idAnswers: seq<Output.Answer>, answers: seq<Output.Answer>)
    | Data(client: int, message: bytes, answers: seq<Output.Answer>)
    | RemoteData(remote: int, message: bytes, answers: seq<Output.Answer>)
    | Dialed(remote: int, ok: bool, idAnswers: seq<Output.Answer>, answers: seq<Output.Answer>)
    | HasRoom(fd: int, answers: seq<Output.Answer>)
    | Hangup(fd: int)
    | BatchEnd

  /** The kernel hands out unopened numbers, and a callback runs for a descriptor watched with it. */
  predicate Enabled(srv: Server, e: Event) {
    match e
    case Accept(client, remote, _, _, _) => client !in srv.opens && remote !in srv.opens && client != remote
    case Data(client, _, _) => client in srv.fds && srv.fds[client].Client?
    case RemoteData(remote, _, _) => remote in srv.fds && srv.fds[remote].Linked?
    case Dialed(remote, _, _, _) => remote in srv.fds && srv.fds[remote].Dialing?
    case HasRoom(fd, _) => fd in srv.opens && (fd in srv.fds ==> !srv.fds[fd].Dialing?)
    case Hangup(fd) => fd in srv.opens && fd in srv.fds && !srv.fds[fd].Dialing?
    case BatchEnd => true
  }

  function NewClient(srv: Server, client: int): Server {
    var id := (srv.sessions + 1) % 0x1_0000_0000;
    OpenFd(srv, client).(sessions := id, c2s := srv.c2s[client := id])
  }

  /** on_connect(client), whose ::connect on `remote` fails, succeeds at once, or is under way; then
      the client is watched. */
  function Accepted(s: State, client: int, remote: int, how: How, idAnswers: seq<Output.Answer>,
      answers: seq<Output.Answer>): State
  {
    var srv := OpenFd(NewClient(s.srv, client), remote);
    var t := s.tab.(state := s.tab.state[client := B4Connect]);
    var s' :=
      match how
      case Fails => DialFailed(State(s.withId, Unwatch(srv, remote), t), remote, client)
      case AtOnce =>
        Joined(RemoteConnected(State(s.withId, srv, t), remote, client, idAnswers, answers), remote, client)
      case Later =>
        State(s.withId, Watch(srv, remote, Dialing(client)),
              Register(t.(state := t.state[client := Connecting]), client, remote));
    s'.(srv := Watch(s'.srv, client, Client))
  }

  function Joined(s: State, remote: int, client: int): State {
    s.(srv := Watch(s.srv, remote, Linked(client)), tab := Register(s.tab, client, remote))
  }

  function Received(srv: Server, fd: int, message: bytes): Server {
    srv.(wires := srv.wires[fd := WireOf(srv, fd).(rcvd := WireOf(srv, fd).rcvd + message)])
  }

  /** The CONNECT wrapper: on success the remote's READ and CLOSE are watched after the callback. */
  function DialDone(s: State, remote: int, client: int, ok: bool, idAnswers: seq<Output.Answer>,
      answers: seq<Output.Answer>): State
  {
    if ok then
      var s1 := RemoteConnected(s.(srv := Watch(s.srv, remote, Bare)), remote, client, idAnswers, answers);
      s1.(srv := Watch(s1.srv, remote, Linked(client)))
    else DialFailed(s.(srv := Unwatch(s.srv, remote)), remote, client)
  }

  /** The peer hung up: unwatched, queued, and its CLOSE callback called. What is owed stays. */
  function HungUp(s: State, fd: int): State {
    if fd !in s.srv.fds then s
    else
      var s1 := s.(srv := Queue(Unwatch(s.srv, fd), fd));
      match s.srv.fds[fd]
      case Client => OnClose(s1, fd)
      case Linked(client) => OnRemoteClose(s1, client)
      case _ => s1
  }

  function Flushed(srv: Server): Server {
    srv.(opens := srv.opens - (set fd | fd in srv.closing), closing := [])
  }

  function Step(s: State, e: Event): State {
    if !Enabled(s.srv, e) then s
    else match e
      case Accept(client, remote, how, idAnswers, answers) => Accepted(s, client, remote, how, idAnswers, answers)
      case Data(client, message, answers) =>
        OnMessage(s.(srv := Received(s.srv, client, message)), client, message, answers)
      case RemoteData(remote, message, answers) =>
        Write(s.(srv := Received(s.srv, remote, message)), s.srv.fds[remote].client, message, answers)
      case Dialed(remote, ok, idAnswers, answers) =>
        DialDone(s, remote, s.srv.fds[remote].client, ok, idAnswers, answers)
      case HasRoom(fd, answers) => Writable(s, fd, answers)
      case Hangup(fd) => HungUp(s, fd)
      case BatchEnd => s.(srv := Flushed(s.srv))
  }

  function Run(withId: bool, events: seq<Event>): State {
    if events == [] then Start(withId) else Step(Run(withId, events[..|events| - 1]), events[|events| - 1])
  }

  // ---- Losing either side ----

  /** Both descriptors unwatched and queued; nothing else of the server changed, but for what the two owe. */
  ghost predicate Dropped(a: Server, b: Server, c: int, r: int) {
    && b.fds == a.fds - {c, r} && b.c2s == a.c2s - {c, r}
    && a.closing <= b.closing && c in b.closing && r in b.closing
    && (forall fd :: fd in b.closing ==> fd in a.closing || fd == c || fd == r)
    && (forall fd :: fd != c && fd != r ==> WireOf(b, fd) == WireOf(a, fd))
    && b.opens == a.opens && b.sessions == a.sessions
  }

  /** And both maps, the state and the buffer cleared of the pair. */
  ghost predicate TornDown(s: State, s': State, c: int, r: int) {
    Dropped(s.srv, s'.srv, c, r) && s'.tab == EraseInfo(s.tab, c) && s'.withId == s.withId
  }

  lemma CloseGone(s: State, fd: int, force: bool)
    requires fd !in s.srv.fds
    ensures Close(s, fd, force) == s.(srv := if force then Queue(Dry(s.srv, fd), fd) else Dry(s.srv, fd))
  {
    hide EraseInfo, Unwatch, Queue, Dry, OnClose, OnRemoteClose, DialFailed;
  }

  lemma CloseStep(s: State, fd: int)
    requires fd in s.srv.fds
    ensures var off := Unwatch(Dry(s.srv, fd), fd);
            Close(s, fd, false) ==
            match s.srv.fds[fd]
            case Bare => s.(srv := Queue(off, fd))
            case Client => OnClose(s.(srv := Queue(off, fd)), fd)
            case Linked(client) => OnRemoteClose(s.(srv := Queue(off, fd)), client)
            case Dialing(client) =>
              var s' := DialFailed(s.(srv := off), fd, client);
              s'.(srv := Queue(s'.srv, fd))
  {
    hide EraseInfo, Unwatch, Queue, Dry, OnClose, OnRemoteClose, DialFailed;
  }

  /** A client or a connected remote whose pair is already forgotten closes alone. */
  lemma CloseAlone(s: State, fd: int)
    requires fd in s.srv.fds && (s.srv.fds[fd].Client? || s.srv.fds[fd].Linked?)
    requires (if s.srv.fds[fd].Client? then fd else s.srv.fds[fd].client) !in s.tab.c2r
    ensures Close(s, fd, false) == s.(srv := Queue(Unwatch(Dry(s.srv, fd), fd), fd))
  {
    hide Close, Unwatch, Queue, Dry;
    CloseStep(s, fd);
  }

  lemma SameFds(srv: Server, fd: int)
    ensures Dry(srv, fd).fds == srv.fds && Queue(srv, fd).fds == srv.fds
  {
  }

  /** Erasing twice is erasing once. */
  lemma EraseTwice(tab: Tables, client: int)
    ensures EraseInfo(EraseInfo(tab, client), client) == EraseInfo(tab, client)
    ensures client !in EraseInfo(tab, client).c2r
  {
  }

  lemma FailedStep(s: State, r: int, c: int)
    requires r !in s.srv.fds && c !in s.srv.fds
    ensures DialFailed(s, r, c) == State(s.withId, Queue(Dry(Dry(s.srv, c), r), r), EraseInfo(s.tab, c))
  {
    hide Close, EraseInfo, Dry, Queue;
    SameFds(s.srv, c);
    CloseGone(s.(tab := EraseInfo(s.tab, c)), c, false);
    CloseGone(State(s.withId, Dry(s.srv, c), EraseInfo(s.tab, c)), r, true);
  }

  ghost predicate PairIn(s: State, c: int, r: int) {
    && c != r && c in s.tab.c2r && s.tab.c2r[c] == r && c in s.srv.fds && s.srv.fds[c] == Client
    && r in s.srv.fds && (s.srv.fds[r] == Linked(c) || s.srv.fds[r] == Dialing(c))
  }

  lemma UnwatchFds(srv: Server, fd: int)
    ensures Unwatch(srv, fd).fds == srv.fds - {fd}
  {
  }

  /** on_close of a client already unwatched and queued: the remote is closed, dialing or not. */
  lemma OnCloseChain(s: State, c: int, r: int)
    requires c in s.tab.c2r && s.tab.c2r[c] == r && c !in s.srv.fds && c != r
    requires r in s.srv.fds && (s.srv.fds[r] == Linked(c) || s.srv.fds[r] == Dialing(c))
    ensures var off := Unwatch(Dry(s.srv, r), r);
            OnClose(s, c) == State(s.withId,
              if s.srv.fds[r].Linked? then Queue(off, r) else Queue(Queue(Dry(Dry(off, c), r), r), r),
              EraseInfo(s.tab, c))
  {
    hide Close, DialFailed, EraseInfo, Dry, Queue, Unwatch;
    var s1 := s.(tab := EraseInfo(s.tab, c));
    assert OnClose(s, c) == Close(s1, r, false);
    EraseTwice(s.tab, c);
    SameFds(s.srv, r);
    UnwatchFds(Dry(s.srv, r), r);
    if s.srv.fds[r].Linked? {
      CloseAlone(s1, r);
    } else {
      CloseStep(s1, r);
      FailedStep(s1.(srv := Unwatch(Dry(s.srv, r), r)), r, c);
    }
  }

  /** on_remote_close of a remote already unwatched and queued, and the same for a failed dial. */
  lemma OnRemoteCloseChain(s: State, c: int)
    requires c in s.tab.c2r && c in s.srv.fds && s.srv.fds[c] == Client
    ensures OnRemoteClose(s, c) == State(s.withId, Queue(Unwatch(Dry(s.srv, c), c), c), EraseInfo(s.tab, c))
  {
    hide Close, EraseInfo, Dry, Queue, Unwatch;
    EraseTwice(s.tab, c);
    CloseAlone(s.(tab := EraseInfo(s.tab, c)), c);
  }

  lemma DialFailedChain(s: State, c: int, r: int)
    requires c in s.srv.fds && s.srv.fds[c] == Client && r !in s.srv.fds
    ensures DialFailed(s, r, c)
         == State(s.withId, Queue(Dry(Queue(Unwatch(Dry(s.srv, c), c), c), r), r), EraseInfo(s.tab, c))
  {
    hide Close, EraseInfo, Dry, Queue, Unwatch;
    EraseTwice(s.tab, c);
    var s1 := s.(tab := EraseInfo(s.tab, c));
    CloseAlone(s1, c);
    SameFds(s.srv, c);
    UnwatchFds(Dry(s.srv, c), c);
    SameFds(Unwatch(Dry(s.srv, c), c), c);
    CloseGone(Close(s1, c, false), r, true);
  }

  // What the chains come to, on the server.

  lemma DryMove(srv: Server, fd: int)
    ensures var b := Dry(srv, fd);
            && b == srv.(wires := b.wires)
            && (forall x :: x != fd ==> WireOf(b, x) == WireOf(srv, x))
            && WireOf(b, fd).rcvd == WireOf(srv, fd).rcvd && WireOf(b, fd).stale == WireOf(srv, fd).stale
  {
  }

  lemma LoseClient(a: Server, c: int, r: int, dialing: bool)
    requires c in a.fds && r in a.fds && c != r
    ensures var s1 := Queue(Unwatch(a, c), c);
            var off := Unwatch(Dry(s1, r), r);
            Dropped(a, if dialing then Queue(Queue(Dry(Dry(off, c), r), r), r) else Queue(off, r), c, r)
  {
    hide Dry, WireOf;
    var s1 := Queue(Unwatch(a, c), c);
    DryMove(s1, r);
    var off := Unwatch(Dry(s1, r), r);
    DryMove(off, c);
    DryMove(Dry(off, c), r);
    WiresOnly(a, s1);
    WiresOnly(Dry(s1, r), off);
    WiresOnly(off, Queue(off, r));
    WiresOnly(Dry(Dry(off, c), r), Queue(Queue(Dry(Dry(off, c), r), r), r));
    assert a.fds - {c} - {r} == a.fds - {c, r};
    assert a.c2s - {c} - {r} == a.c2s - {c, r};
  }

  lemma WiresOnly(a: Server, b: Server)
    requires a.wires == b.wires
    ensures forall fd :: WireOf(a, fd) == WireOf(b, fd)
  {
  }

  lemma LoseRemote(a: Server, c: int, r: int)
    requires c in a.fds && r in a.fds && c != r
    ensures var s1 := Queue(Unwatch(a, r), r);
            Dropped(a, Queue(Unwatch(Dry(s1, c), c), c), c, r)
  {
    hide Dry, WireOf;
    var s1 := Queue(Unwatch(a, r), r);
    DryMove(s1, c);
    WiresOnly(a, s1);
    WiresOnly(Dry(s1, c), Queue(Unwatch(Dry(s1, c), c), c));
    assert a.fds - {r} - {c} == a.fds - {c, r};
    assert a.c2s - {r} - {c} == a.c2s - {c, r};
  }

  lemma LoseDialing(a: Server, c: int, r: int)
    requires c in a.fds && r in a.fds && c != r
    ensures var off := Unwatch(a, r);
            var b := Queue(Dry(Queue(Unwatch(Dry(off, c), c), c), r), r);
            Dropped(a, b, c, r) && Dropped(a, Queue(b, r), c, r)
  {
    hide Dry, WireOf;
    var off := Unwatch(a, r);
    DryMove(off, c);
    var s1 := Queue(Unwatch(Dry(off, c), c), c);
    DryMove(s1, r);
    var b := Queue(Dry(s1, r), r);
    WiresOnly(a, off);
    WiresOnly(Dry(off, c), s1);
    WiresOnly(Dry(s1, r), b);
    WiresOnly(b, Queue(b, r));
    assert a.fds - {r} - {c} == a.fds - {c, r};
    assert a.c2s - {r} - {c} == a.c2s - {c, r};
  }

  lemma AfterDry(a: Server, b: Server, fd: int, c: int, r: int)
    requires Dropped(Dry(a, fd), b, c, r) && (fd == c || fd == r)
    ensures Dropped(a, b, c, r)
  {
    hide Dry, WireOf;
    DryMove(a, fd);
  }

  /** Either side hanging up ends the pair. */
  lemma HangupTears(s: State, fd: int, c: int, r: int)
    requires PairIn(s, c, r) && (fd == c || (fd == r && s.srv.fds[r].Linked?))
    ensures TornDown(s, HungUp(s, fd), c, r)
  {
    hide Close, DialFailed, OnClose, OnRemoteClose, EraseInfo, Dry, Dropped;
    var s1 := s.(srv := Queue(Unwatch(s.srv, fd), fd));
    if fd == c {
      OnCloseChain(s1, c, r);
      LoseClient(s.srv, c, r, s.srv.fds[r].Dialing?);
    } else {
      OnRemoteCloseChain(s1, c);
      LoseRemote(s.srv, c, r);
    }
  }

  /** So does closing either side, also while still connecting. */
  lemma CloseTears(s: State, fd: int, c: int, r: int)
    requires PairIn(s, c, r) && (fd == c || fd == r)
    ensures TornDown(s, Close(s, fd, false), c, r)
  {
    hide Close, DialFailed, OnClose, OnRemoteClose, EraseInfo, Dry, Dropped;
    CloseStep(s, fd);
    SameFds(s.srv, fd);
    var a := Dry(s.srv, fd);
    if fd == c {
      OnCloseChain(s.(srv := Queue(Unwatch(a, c), c)), c, r);
      LoseClient(a, c, r, s.srv.fds[r].Dialing?);
    } else if s.srv.fds[r].Linked? {
      OnRemoteCloseChain(s.(srv := Queue(Unwatch(a, r), r)), c);
      LoseRemote(a, c, r);
    } else {
      DialFailedChain(s.(srv := Unwatch(a, r)), c, r);
      LoseDialing(a, c, r);
    }
    AfterDry(s.srv, Close(s, fd, false).srv, fd, c, r);
  }

  /** So does a connection attempt that fails. */
  lemma DialFailTears(s: State, c: int, r: int)
    requires PairIn(s, c, r) && s.srv.fds[r].Dialing?
    ensures TornDown(s, DialFailed(s.(srv := Unwatch(s.srv, r)), r, c), c, r)
  {
    hide Close, DialFailed, EraseInfo, Dry, Dropped;
    DialFailedChain(s.(srv := Unwatch(s.srv, r)), c, r);
    LoseDialing(s.srv, c, r);
  }

  // ---- What holds in every reachable state ----

  ghost predicate Pairs(s: State) {
    && (forall c :: c in s.tab.c2r ==> PairOf(s, c))
    && (forall r :: r in s.tab.r2c ==> s.tab.r2c[r] in s.tab.c2r && s.tab.c2r[s.tab.r2c[r]] == r)
    && (forall c :: c in s.tab.state ==> c in s.tab.c2r)
    && (forall c :: c in s.tab.buf ==> c in s.tab.c2r)
    && (forall fd :: fd in s.srv.fds && s.srv.fds[fd] != Bare ==> Open(s, fd))
    && (forall fd :: fd in s.srv.closing ==> fd in s.srv.opens)
  }

  predicate PairOf(s: State, c: int)
    requires c in s.tab.c2r
  {
    var r := s.tab.c2r[c];
    && c in s.srv.fds && s.srv.fds[c] == Client && c in s.tab.state
    && r in s.srv.fds && s.srv.fds[r] == (if s.tab.state[c] == Connected then Linked(c) else Dialing(c))
    && r in s.tab.r2c && s.tab.r2c[r] == c
    && c in s.srv.c2s && 0 <= s.srv.c2s[c] < 0x1_0000_0000
  }

  predicate Open(s: State, fd: int)
    requires fd in s.srv.fds
  {
    && fd in s.srv.opens && fd !in s.srv.closing
    && match s.srv.fds[fd]
       case Client => fd in s.tab.c2r
       case Linked(c) => c in s.tab.c2r && s.tab.c2r[c] == fd
       case Dialing(c) => c in s.tab.c2r && s.tab.c2r[c] == fd
       case Bare => true
  }

  function Header(s: State, client: int): bytes {
    if s.withId then BigEndian(4, Id(s.srv, client)) else []
  }

  /** What is due upstream, given what the client sent: nothing until the upstream is connected. */
  function Due(s: State, c: int): bytes {
    if StateOf(s.tab, c) == Connected then Header(s, c) + WireOf(s.srv, c).rcvd else []
  }

  function HeldBack(s: State, c: int): bytes {
    if StateOf(s.tab, c) == Connected then [] else WireOf(s.srv, c).rcvd
  }

  /** The two streams of a pair: from the client to the remote, and back. */
  datatype Way = Up | Down

  function Receiver(s: State, c: int, way: Way): int
    requires c in s.tab.c2r
  {
    if way == Up then s.tab.c2r[c] else c
  }

  /** What is to reach the receiver: whatever was owed under its number before, then what came from the other side. */
  function Target(s: State, c: int, way: Way): bytes
    requires c in s.tab.c2r
  {
    WireOf(s.srv, Receiver(s, c, way)).stale + if way == Up then Due(s, c) else WireOf(s.srv, s.tab.c2r[c]).rcvd
  }

  function Sent(s: State, c: int, way: Way): bytes
    requires c in s.tab.c2r
  {
    Output.Stream(WireOf(s.srv, Receiver(s, c, way)).channel)
  }

  predicate Held(s: State, c: int) { Saved(s.tab.buf, c) == HeldBack(s, c) }

  /** Nothing was lost on the way, and all has gone out or is owed; or something was, and is missing. */
  predicate Account(s: State, c: int, way: Way, lost: bool)
    requires c in s.tab.c2r
  {
    Held(s, c) && if lost then |Sent(s, c, way)| < |Target(s, c, way)| else Sent(s, c, way) == Target(s, c, way)
  }

  ghost predicate Inv(s: State) { Pairs(s) && forall c, way :: c in s.tab.c2r ==> Account(s, c, way, false) }

  lemma TornPairs(s: State, s': State, c: int, r: int)
    requires Pairs(s) && c in s.tab.c2r && s.tab.c2r[c] == r && TornDown(s, s', c, r)
    ensures Pairs(s')
  {
    forall k | k in s'.tab.c2r ensures PairOf(s', k) {
      assert PairOf(s, k) && PairOf(s, c);
    }
    forall fd | fd in s'.srv.fds && s'.srv.fds[fd] != Bare ensures Open(s', fd) {
      assert Open(s, fd);
    }
  }

  /** Different pairs have no descriptor in common. */
  lemma Apart(s: State, c: int, k: int)
    requires Pairs(s) && c in s.tab.c2r && k in s.tab.c2r
    ensures PairIn(s, c, s.tab.c2r[c])
    ensures k != s.tab.c2r[c] && (k != c ==> s.tab.c2r[k] != c && s.tab.c2r[k] != s.tab.c2r[c])
  {
    assert PairOf(s, c) && PairOf(s, k);
  }

  // ---- Writing ----

  /** All that a write changes unless the pipe breaks: the descriptor's channel, and an entry for it. */
  ghost predicate Touched(a: Server, b: Server, fd: int) {
    && b == a.(wires := b.wires, fds := b.fds)
    && (b.fds == a.fds || (fd !in a.fds && b.fds == a.fds[fd := Bare]))
    && (forall x :: x != fd ==> WireOf(b, x) == WireOf(a, x))
    && WireOf(b, fd).stale == WireOf(a, fd).stale && WireOf(b, fd).rcvd == WireOf(a, fd).rcvd
  }

  /** A write that loses nothing adds to the descriptor's stream. */
  ghost predicate Wrote(a: Server, b: Server, fd: int, data: bytes) {
    Touched(a, b, fd) && Output.Stream(WireOf(b, fd).channel) == Output.Stream(WireOf(a, fd).channel) + data
  }

  ghost predicate Shorted(a: Server, b: Server, fd: int, size: nat) {
    Touched(a, b, fd) && |Output.Stream(WireOf(b, fd).channel)| < |Output.Stream(WireOf(a, fd).channel)| + size
  }

  function WriteEnd(srv: Server, fd: int, data: bytes, answers: seq<Output.Answer>): Output.End {
    Output.Write(WireOf(srv, fd).channel, data, answers).1
  }

  predicate WriteLoses(srv: Server, fd: int, data: bytes, answers: seq<Output.Answer>) {
    Output.Loses(WireOf(srv, fd).channel, data, answers)
  }

  lemma SetWire(srv: Server, fd: int, c: Output.Channel)
    ensures var b := SetChannel(srv, fd, c);
            && b == srv.(wires := b.wires) && WireOf(b, fd) == WireOf(srv, fd).(channel := c)
            && (forall x :: x != fd ==> WireOf(b, x) == WireOf(srv, x))
  {
  }

  lemma WriteCases(s: State, fd: int, data: bytes, answers: seq<Output.Answer>)
    ensures var s' := Write(s, fd, data, answers);
            var (c, end) := Output.Write(WireOf(s.srv, fd).channel, data, answers);
            if end == Output.Broken then s' == Close(s.(srv := SetChannel(s.srv, fd, c)), fd, false)
            else && s' == s.(srv := s'.srv)
                 && if WriteLoses(s.srv, fd, data, answers) then Shorted(s.srv, s'.srv, fd, |data|)
                    else Wrote(s.srv, s'.srv, fd, data)
  {
    hide Close, Output.Write, Output.Loses, SetChannel, Output.Stream, WireOf;
    var (c, end) := Output.Write(WireOf(s.srv, fd).channel, data, answers);
    SetWire(s.srv, fd, c);
    WiresOnly(SetChannel(s.srv, fd, c), AutoRewatch(SetChannel(s.srv, fd, c), fd));
    Output.WriteExact(WireOf(s.srv, fd).channel, data, answers);
  }

  lemma FinishCases(s: State, fd: int, answers: seq<Output.Answer>)
    ensures var s' := Writable(s, fd, answers);
            var (c, end) := Output.Finish(WireOf(s.srv, fd).channel, answers);
            if end == Output.Broken then s' == Close(s.(srv := SetChannel(s.srv, fd, c)), fd, false)
            else && s' == s.(srv := s'.srv)
                 && if Output.FinishLoses(WireOf(s.srv, fd).channel, answers) then Shorted(s.srv, s'.srv, fd, 0)
                    else Wrote(s.srv, s'.srv, fd, [])
  {
    hide Close, Output.Write, Output.FinishLoses, SetChannel, Output.Stream, WireOf;
    var w := WireOf(s.srv, fd).channel;
    var (c, end) := Output.Finish(w, answers);
    SetWire(s.srv, fd, c);
    WiresOnly(SetChannel(s.srv, fd, c), AutoRewatch(SetChannel(s.srv, fd, c), fd));
    WiresOnly(s.srv, AutoRewatch(s.srv, fd));
    assert Output.Stream(w) + [] == Output.Stream(w);
    Output.FinishExact(w, answers);
  }

  // ---- Changes confined to one pair, or to a descriptor of none ----

  /** The pair of `k` is as it was, as far as its streams go. */
  ghost predicate Untouched(s: State, s': State, k: int)
    requires k in s'.tab.c2r
  {
    && k in s.tab.c2r && s'.tab.c2r[k] == s.tab.c2r[k] && Header(s', k) == Header(s, k)
    && StateOf(s'.tab, k) == StateOf(s.tab, k) && Saved(s'.tab.buf, k) == Saved(s.tab.buf, k)
    && WireOf(s'.srv, k) == WireOf(s.srv, k) && WireOf(s'.srv, s.tab.c2r[k]) == WireOf(s.srv, s.tab.c2r[k])
  }

  /** All pairs are, but perhaps that of `c`. */
  ghost predicate Spared(s: State, s': State, c: int) {
    forall k :: k in s'.tab.c2r && k != c ==> Untouched(s, s', k)
  }

  lemma SparedTwice(s: State, s1: State, s2: State, c: int)
    requires Spared(s, s1, c) && Spared(s1, s2, c)
    ensures Spared(s, s2, c)
  {
    hide WireOf, Header;
    forall k | k in s2.tab.c2r && k != c ensures Untouched(s, s2, k) {
      assert Untouched(s1, s2, k) && Untouched(s, s1, k);
    }
  }

  lemma UntouchedAccount(s: State, s': State, k: int, way: Way, lost: bool)
    requires k in s'.tab.c2r && Untouched(s, s', k) && Account(s, k, way, lost)
    ensures Account(s', k, way, lost)
  {
    hide WireOf, Header, Output.Stream;
  }

  lemma TornSpared(s: State, s': State, c: int, r: int)
    requires Pairs(s) && c in s.tab.c2r && s.tab.c2r[c] == r && TornDown(s, s', c, r)
    ensures Spared(s, s', c)
  {
    hide Pairs, WireOf;
    forall k | k in s'.tab.c2r && k != c ensures Untouched(s, s', k) {
      Apart(s, c, k);
    }
  }

  ghost predicate Within(s: State, s': State, c: int, r: int) {
    && s'.withId == s.withId && s'.tab.c2r == s.tab.c2r && s'.tab.r2c == s.tab.r2c
    && s'.srv == s.srv.(wires := s'.srv.wires, fds := s'.srv.fds)
    && (forall k :: k != c ==> (k in s'.tab.state <==> k in s.tab.state) && StateOf(s'.tab, k) == StateOf(s.tab, k))
    && (forall k :: k != c ==> (k in s'.tab.buf <==> k in s.tab.buf) && Saved(s'.tab.buf, k) == Saved(s.tab.buf, k))
    && (forall fd :: fd != c && fd != r ==> (fd in s'.srv.fds <==> fd in s.srv.fds))
    && (forall fd :: fd != c && fd != r && fd in s.srv.fds ==> s'.srv.fds[fd] == s.srv.fds[fd])
    && (forall fd :: fd != c && fd != r ==> WireOf(s'.srv, fd) == WireOf(s.srv, fd))
  }

  lemma WithinPairs(s: State, s': State, c: int, r: int)
    requires Pairs(s) && c in s.tab.c2r && s.tab.c2r[c] == r && Within(s, s', c, r) && PairOf(s', c)
    ensures Pairs(s')
  {
    hide WireOf;
    forall k | k in s'.tab.c2r ensures PairOf(s', k) {
      if k != c {
        Apart(s, c, k);
        assert PairOf(s, k);
        assert StateOf(s'.tab, k) == StateOf(s.tab, k);
      }
    }
    assert PairOf(s, c);
    assert Open(s, c) && Open(s, r);
    forall fd | fd in s'.srv.fds && s'.srv.fds[fd] != Bare ensures Open(s', fd) {
      if fd != c && fd != r {
        assert Open(s, fd);
      }
    }
  }

  ghost predicate Outside(s: State, s': State, fd: int) {
    && s'.withId == s.withId && s'.tab == s.tab
    && s'.srv == s.srv.(wires := s'.srv.wires, fds := s'.srv.fds, closing := s'.srv.closing, c2s := s'.srv.c2s)
    && (fd in s'.srv.fds ==> s'.srv.fds[fd] == Bare)
    && (forall x :: x != fd ==>
          (x in s'.srv.fds <==> x in s.srv.fds) && (x in s.srv.fds ==> s'.srv.fds[x] == s.srv.fds[x]))
    && (forall x :: x != fd ==>
          (x in s'.srv.c2s <==> x in s.srv.c2s) && (x in s.srv.c2s ==> s'.srv.c2s[x] == s.srv.c2s[x]))
    && (forall x :: x != fd ==> WireOf(s'.srv, x) == WireOf(s.srv, x))
    && (forall x :: x in s'.srv.closing ==> x in s.srv.closing || x == fd)
  }

  lemma WithinSpared(s: State, s': State, c: int, r: int)
    requires Pairs(s) && c in s.tab.c2r && s.tab.c2r[c] == r && Within(s, s', c, r)
    ensures Spared(s, s', c)
  {
    hide Pairs, WireOf;
    forall k | k in s'.tab.c2r && k != c ensures Untouched(s, s', k) {
      Apart(s, c, k);
    }
  }

  lemma OutsidePairs(s: State, s': State, fd: int)
    requires Pairs(s) && fd !in s.tab.c2r && fd !in s.tab.r2c && fd in s.srv.opens && Outside(s, s', fd)
    ensures Pairs(s')
  {
    hide WireOf;
    forall k | k in s'.tab.c2r ensures PairOf(s', k) {
      assert PairOf(s, k);
    }
    forall x | x in s'.srv.fds && s'.srv.fds[x] != Bare ensures Open(s', x) {
      assert Open(s, x);
    }
  }

  lemma OutsideSpared(s: State, s': State, fd: int)
    requires Pairs(s) && fd !in s.tab.c2r && fd !in s.tab.r2c && Outside(s, s', fd)
    ensures Spared(s, s', fd)
  {
    hide WireOf;
    forall k | k in s'.tab.c2r && k != fd ensures Untouched(s, s', k) {
      assert PairOf(s, k);
    }
  }

  // ---- Events keep the pairs ----

  /** A write to either side of a pair: the pair stays, its streams short or not, or is torn down because the
      peer is gone. */
  lemma WritePairs(s: State, fd: int, data: bytes, answers: seq<Output.Answer>, c: int, r: int)
    requires Pairs(s) && c in s.tab.c2r && s.tab.c2r[c] == r && (fd == c || fd == r)
    ensures var s' := Write(s, fd, data, answers);
            && Pairs(s') && Spared(s, s', c)
            && if WriteEnd(s.srv, fd, data, answers) == Output.Broken then c !in s'.tab.c2r
               else && s' == s.(srv := s'.srv)
                    && if WriteLoses(s.srv, fd, data, answers) then Shorted(s.srv, s'.srv, fd, |data|)
                       else Wrote(s.srv, s'.srv, fd, data)
  {
    hide Pairs, Output.Stream, WireOf, Close, Output.Write, WriteLoses, SetChannel, Write, Spared;
    WriteCases(s, fd, data, answers);
    EndOf(s.srv, fd, data, answers);
    var s' := Write(s, fd, data, answers);
    var (ch, end) := Output.Write(WireOf(s.srv, fd).channel, data, answers);
    Apart(s, c, c);
    if end == Output.Broken {
      SetWire(s.srv, fd, ch);
      TearPairs(s, s.(srv := SetChannel(s.srv, fd, ch)), fd, c, r);
    } else {
      TouchPairs(s, s', fd, c, r);
    }
  }

  lemma EndOf(srv: Server, fd: int, data: bytes, answers: seq<Output.Answer>)
    ensures WriteEnd(srv, fd, data, answers) == Output.Write(WireOf(srv, fd).channel, data, answers).1
  {
  }

  lemma TearPairs(s: State, s1: State, fd: int, c: int, r: int)
    requires Pairs(s) && c in s.tab.c2r && s.tab.c2r[c] == r && (fd == c || fd == r)
    requires s1 == s.(srv := s.srv.(wires := s1.srv.wires))
    requires forall x :: x != c && x != r ==> WireOf(s1.srv, x) == WireOf(s.srv, x)
    ensures var s' := Close(s1, fd, false); Pairs(s') && Spared(s, s', c) && c !in s'.tab.c2r
  {
    hide Pairs, Close, WireOf, Spared;
    Apart(s, c, c);
    CloseTears(s1, fd, c, r);
    BeforeTear(s, s1, Close(s1, fd, false), c, r);
    TornPairs(s, Close(s1, fd, false), c, r);
    TornSpared(s, Close(s1, fd, false), c, r);
  }

  lemma TouchPairs(s: State, s': State, fd: int, c: int, r: int)
    requires Pairs(s) && c in s.tab.c2r && s.tab.c2r[c] == r && (fd == c || fd == r)
    requires s' == s.(srv := s'.srv) && Touched(s.srv, s'.srv, fd)
    ensures Pairs(s') && Spared(s, s', c)
  {
    hide Pairs, WireOf, Spared;
    Apart(s, c, c);
    PairsAt(s, c);
    WithinPairs(s, s', c, r);
    WithinSpared(s, s', c, r);
  }

  lemma BeforeTear(s: State, s1: State, s': State, c: int, r: int)
    requires TornDown(s1, s', c, r) && s1 == s.(srv := s.srv.(wires := s1.srv.wires))
    requires forall fd :: fd != c && fd != r ==> WireOf(s1.srv, fd) == WireOf(s.srv, fd)
    ensures TornDown(s, s', c, r)
  {
  }

  lemma RemoteOf(s: State, r: int) returns (c: int)
    requires Pairs(s) && r in s.srv.fds && (s.srv.fds[r].Linked? || s.srv.fds[r].Dialing?)
    ensures c in s.tab.c2r && s.tab.c2r[c] == r && c == s.srv.fds[r].client
  {
    assert Open(s, r);
    c := s.srv.fds[r].client;
  }

  lemma ClientOf(s: State, c: int)
    requires Pairs(s) && c in s.srv.fds && s.srv.fds[c].Client?
    ensures c in s.tab.c2r
  {
    assert Open(s, c);
  }

  lemma PairsAt(s: State, c: int)
    requires Pairs(s) && c in s.tab.c2r
    ensures PairOf(s, c)
  {
  }

  lemma Assoc(a: bytes, b: bytes, c: bytes)
    ensures a + b + c == a + (b + c)
  {
  }

  /** A connected client's chunk as it is about to be written upstream. */
  function Passing(s: State, c: int, message: bytes): State {
    s.(srv := Received(s.srv, c, message), tab := s.tab.(buf := s.tab.buf - {c}))
  }

  lemma PassingStep(s: State, c: int, message: bytes, answers: seq<Output.Answer>)
    requires c in s.tab.c2r && c in s.srv.fds && s.srv.fds[c].Client? && StateOf(s.tab, c) == Connected
    ensures Step(s, Data(c, message, answers))
         == Write(Passing(s, c, message), s.tab.c2r[c], Saved(s.tab.buf, c) + message, answers)
  {
    hide Write, Received;
    assert s.tab.c2r[c := s.tab.c2r[c]] == s.tab.c2r;
  }

  lemma PassingPairs(s: State, c: int, message: bytes)
    requires Pairs(s) && c in s.tab.c2r
    ensures var s0 := Passing(s, c, message); Pairs(s0) && Spared(s, s0, c)
  {
    hide Pairs, Spared;
    var r := s.tab.c2r[c];
    Apart(s, c, c);
    PairsAt(s, c);
    WithinPairs(s, Passing(s, c, message), c, r);
    WithinSpared(s, Passing(s, c, message), c, r);
  }

  lemma DataPairs(s: State, c: int, message: bytes, answers: seq<Output.Answer>)
    requires Pairs(s) && c in s.srv.fds && s.srv.fds[c].Client?
    ensures var s' := Step(s, Data(c, message, answers)); Pairs(s') && Spared(s, s', c)
  {
    hide Write, Pairs, Spared, Passing;
    ClientOf(s, c);
    var s', r := Step(s, Data(c, message, answers)), s.tab.c2r[c];
    if StateOf(s.tab, c) != Connected {
      Apart(s, c, c);
      PairsAt(s, c);
      WithinPairs(s, s', c, r);
      WithinSpared(s, s', c, r);
    } else {
      PassingStep(s, c, message, answers);
      PassingPairs(s, c, message);
      PassingTab(s, c, message);
      WritePairs(Passing(s, c, message), r, Saved(s.tab.buf, c) + message, answers, c, r);
      SparedTwice(s, Passing(s, c, message), s', c);
    }
  }

  lemma PassingTab(s: State, c: int, message: bytes)
    ensures Passing(s, c, message).tab.c2r == s.tab.c2r
  {
  }

  lemma ReceivedPairs(s: State, r: int, c: int, message: bytes)
    requires Pairs(s) && c in s.tab.c2r && s.tab.c2r[c] == r
    ensures var s0 := s.(srv := Received(s.srv, r, message)); Pairs(s0) && Spared(s, s0, c)
  {
    hide Pairs, Spared;
    Apart(s, c, c);
    PairsAt(s, c);
    WithinPairs(s, s.(srv := Received(s.srv, r, message)), c, r);
    WithinSpared(s, s.(srv := Received(s.srv, r, message)), c, r);
  }

  lemma RemoteDataPairs(s: State, r: int, message: bytes, answers: seq<Output.Answer>)
    requires Pairs(s) && r in s.srv.fds && s.srv.fds[r].Linked?
    ensures var s' := Step(s, RemoteData(r, message, answers)); Pairs(s') && Spared(s, s', s.srv.fds[r].client)
  {
    hide Write, Pairs, Spared, Received;
    var c := RemoteOf(s, r);
    var s0 := s.(srv := Received(s.srv, r, message));
    ReceivedPairs(s, r, c, message);
    WritePairs(s0, c, message, answers, c, r);
    SparedTwice(s, s0, Step(s, RemoteData(r, message, answers)), c);
  }

  /** The client an event at this descriptor is about; the descriptor itself when it is in no pair. */
  function OwnerOf(s: State, fd: int): int {
    if fd in s.srv.fds && (s.srv.fds[fd].Linked? || s.srv.fds[fd].Dialing?) then s.srv.fds[fd].client else fd
  }

  lemma HangupPairs(s: State, fd: int)
    requires Pairs(s) && fd in s.srv.fds && !s.srv.fds[fd].Dialing? && fd in s.srv.opens
    ensures var s', c := HungUp(s, fd), OwnerOf(s, fd); Pairs(s') && Spared(s, s', c) && c !in s'.tab.c2r
  {
    hide Pairs, HungUp, Spared;
    if s.srv.fds[fd] == Bare {
      BareOutside(s, fd);
      BareHangup(s, fd);
      OutsidePairs(s, HungUp(s, fd), fd);
      OutsideSpared(s, HungUp(s, fd), fd);
    } else {
      var c := OwnerOf(s, fd);
      if s.srv.fds[fd].Client? {
        ClientOf(s, fd);
      } else {
        var _ := RemoteOf(s, fd);
      }
      Apart(s, c, c);
      HangupTears(s, fd, c, s.tab.c2r[c]);
      TornPairs(s, HungUp(s, fd), c, s.tab.c2r[c]);
      TornSpared(s, HungUp(s, fd), c, s.tab.c2r[c]);
    }
  }

  lemma BareHangup(s: State, fd: int)
    requires fd in s.srv.fds && s.srv.fds[fd] == Bare
    ensures Outside(s, HungUp(s, fd), fd)
  {
  }

  lemma BareOutside(s: State, fd: int)
    requires Pairs(s) && (fd !in s.srv.fds || s.srv.fds[fd] == Bare)
    ensures fd !in s.tab.c2r && fd !in s.tab.r2c
  {
    assert fd in s.tab.c2r ==> PairOf(s, fd);
    assert fd in s.tab.r2c ==> PairOf(s, s.tab.r2c[fd]);
  }

  lemma FlushPairs(s: State)
    requires Pairs(s)
    ensures var s' := s.(srv := Flushed(s.srv)); Pairs(s') && forall c :: Spared(s, s', c)
  {
    var s' := s.(srv := Flushed(s.srv));
    forall k | k in s'.tab.c2r ensures PairOf(s', k) {
      assert PairOf(s, k);
    }
    forall x | x in s'.srv.fds && s'.srv.fds[x] != Bare ensures Open(s', x) {
      assert Open(s, x);
    }
  }

  lemma RoomPairs(s: State, fd: int, answers: seq<Output.Answer>)
    requires Pairs(s) && fd in s.srv.opens && (fd in s.srv.fds ==> !s.srv.fds[fd].Dialing?)
    ensures var s' := Writable(s, fd, answers);
            var (_, end) := Output.Finish(WireOf(s.srv, fd).channel, answers);
            && Pairs(s') && Spared(s, s', OwnerOf(s, fd))
            && (fd !in s.srv.fds || s.srv.fds[fd] == Bare ==> s'.tab == s.tab)
            && (fd in s.srv.fds && s.srv.fds[fd] != Bare ==>
                  var c := OwnerOf(s, fd);
                  && c in s.tab.c2r && (fd == c || fd == s.tab.c2r[c])
                  && if end == Output.Broken then c !in s'.tab.c2r
                     else && s' == s.(srv := s'.srv)
                          && if Output.FinishLoses(WireOf(s.srv, fd).channel, answers)
                             then Shorted(s.srv, s'.srv, fd, 0)
                             else Wrote(s.srv, s'.srv, fd, []))
  {
    hide Pairs, Output.Stream, WireOf, Close, Output.Finish, Output.FinishLoses, SetChannel, Writable, Spared;
    FinishCases(s, fd, answers);
    var s' := Writable(s, fd, answers);
    var (ch, end) := Output.Finish(WireOf(s.srv, fd).channel, answers);
    var s1 := s.(srv := SetChannel(s.srv, fd, ch));
    SetWire(s.srv, fd, ch);
    if fd !in s.srv.fds || s.srv.fds[fd] == Bare {
      BareOutside(s, fd);
      if end == Output.Broken {
        BareClose(s1, fd);
        Outside2(s, s1, s', fd);
      }
      OutsidePairs(s, s', fd);
      OutsideSpared(s, s', fd);
    } else {
      var c := OwnerOf(s, fd);
      if s.srv.fds[fd].Client? {
        ClientOf(s, fd);
      } else {
        var _ := RemoteOf(s, fd);
      }
      if end == Output.Broken {
        TearPairs(s, s1, fd, c, s.tab.c2r[c]);
      } else {
        TouchPairs(s, s', fd, c, s.tab.c2r[c]);
      }
    }
  }

  lemma BareClose(s: State, fd: int)
    requires fd !in s.srv.fds || s.srv.fds[fd] == Bare
    ensures Outside(s, Close(s, fd, false), fd)
  {
    hide Close;
    if fd in s.srv.fds {
      CloseStep(s, fd);
    } else {
      CloseGone(s, fd, false);
    }
  }

  lemma Outside2(s: State, s1: State, s': State, fd: int)
    requires Outside(s1, s', fd) && s1 == s.(srv := s.srv.(wires := s1.srv.wires))
    requires forall x :: x != fd ==> WireOf(s1.srv, x) == WireOf(s.srv, x)
    ensures Outside(s, s', fd)
  {
  }

  // ---- Connecting ----

  lemma WroteTwice(a: Server, b: Server, d: Server, fd: int, x: bytes, y: bytes)
    requires Wrote(a, b, fd, x) && Wrote(b, d, fd, y)
    ensures Wrote(a, d, fd, x + y)
  {
    hide Output.Stream, WireOf;
    Assoc(Output.Stream(WireOf(a, fd).channel), x, y);
  }

  lemma WroteNothing(a: Server, fd: int)
    ensures Wrote(a, a, fd, [])
  {
    hide Output.Stream, WireOf;
    var w := Output.Stream(WireOf(a, fd).channel);
    assert w + [] == w;
  }

  lemma TouchedTwice(a: Server, b: Server, d: Server, fd: int)
    requires Touched(a, b, fd) && Touched(b, d, fd)
    ensures Touched(a, d, fd)
  {
    hide WireOf;
  }

  lemma TouchedNot(a: Server, fd: int)
    ensures Touched(a, a, fd)
  {
  }

  /** Announcing the client upstream and then sending what was held back lose nothing. */
  predicate Delivers(s: State, r: int, c: int, idAnswers: seq<Output.Answer>, answers: seq<Output.Answer>) {
    && (s.withId ==> !Output.Fatal(WriteEnd(s.srv, r, Header(s, c), idAnswers)))
    && (c in s.tab.buf ==>
          var b := SendId(s, r, c, idAnswers).srv;
          WriteEnd(b, r, s.tab.buf[c], answers) != Output.Broken && !WriteLoses(b, r, s.tab.buf[c], answers))
  }

  lemma SentId(s: State, r: int, c: int, answers: seq<Output.Answer>)
    requires s.withId ==> !Output.Fatal(WriteEnd(s.srv, r, Header(s, c), answers))
    ensures var s' := SendId(s, r, c, answers); s' == s.(srv := s'.srv) && Wrote(s.srv, s'.srv, r, Header(s, c))
  {
    hide Write, Wrote;
    if s.withId {
      WriteCases(s, r, Header(s, c), answers);
    } else {
      WroteNothing(s.srv, r);
    }
  }

  /** on_remote_connect(OK) when nothing is lost: the id, then all that was held back. */
  lemma ConnectedEffect(s: State, r: int, c: int, idAnswers: seq<Output.Answer>, answers: seq<Output.Answer>)
    requires Delivers(s, r, c, idAnswers, answers) && (s.withId ==> c in s.srv.c2s)
    requires c in s.tab.buf ==> c in s.tab.c2r && s.tab.c2r[c] == r
    ensures var s' := RemoteConnected(s, r, c, idAnswers, answers);
            && s' == State(s.withId, s'.srv, s.tab.(state := s.tab.state[c := Connected], buf := s.tab.buf - {c}))
            && Wrote(s.srv, s'.srv, r, Header(s, c) + Saved(s.tab.buf, c))
  {
    hide Write, Wrote, SendId, Header, WriteEnd, WriteLoses;
    SentId(s, r, c, idAnswers);
    var s1 := SendId(s, r, c, idAnswers);
    if c in s.tab.buf {
      var m := s.tab.buf[c];
      FlushIsWrite(s, r, c, idAnswers, answers);
      var s2 := s1.(tab := s.tab.(state := s.tab.state[c := Connected], buf := s.tab.buf - {c}));
      WriteCases(s2, r, m, answers);
      assert WriteEnd(s2.srv, r, m, answers) == Output.Write(WireOf(s2.srv, r).channel, m, answers).1 by {
        EndOf(s2.srv, r, m, answers);
      }
      WroteTwice(s.srv, s1.srv, Write(s2, r, m, answers).srv, r, Header(s, c), m);
    } else {
      assert Header(s, c) + [] == Header(s, c);
      assert s.tab.buf - {c} == s.tab.buf;
    }
  }

  lemma FlushIsWrite(s: State, r: int, c: int, idAnswers: seq<Output.Answer>, answers: seq<Output.Answer>)
    requires c in s.tab.buf && c in s.tab.c2r && s.tab.c2r[c] == r && (s.withId ==> c in s.srv.c2s)
    requires var s1 := SendId(s, r, c, idAnswers); s1 == s.(srv := s1.srv)
    ensures var s1 := SendId(s, r, c, idAnswers);
            var s2 := s1.(tab := s.tab.(state := s.tab.state[c := Connected], buf := s.tab.buf - {c}));
            RemoteConnected(s, r, c, idAnswers, answers) == Write(s2, r, s.tab.buf[c], answers)
  {
    hide Write, SendId;
    var m := s.tab.buf[c];
    assert [] + m == m;
    assert s.tab.c2r[c := r] == s.tab.c2r && s.tab.buf - {c} - {c} == s.tab.buf - {c};
  }

  /** What writing to a descriptor of no pair can do at most, whatever the kernel answers. */
  ghost predicate AtMost(a: Server, b: Server, fd: int, size: int) {
    && (fd in b.fds ==> b.fds[fd] == Bare)
    && (forall x :: x in a.closing ==> x in b.closing)
    && (forall x :: x != fd ==> WireOf(b, x) == WireOf(a, x))
    && WireOf(b, fd).stale == WireOf(a, fd).stale && WireOf(b, fd).rcvd == WireOf(a, fd).rcvd
    && |Output.Stream(WireOf(b, fd).channel)| <= |Output.Stream(WireOf(a, fd).channel)| + size
  }

  lemma BareWrite(s: State, fd: int, data: bytes, answers: seq<Output.Answer>)
    requires fd in s.srv.fds ==> s.srv.fds[fd] == Bare
    ensures var s', end := Write(s, fd, data, answers), WriteEnd(s.srv, fd, data, answers);
            && s' == s.(srv := s'.srv)
            && AtMost(s.srv, s'.srv, fd, if Output.Fatal(end) && data != [] then |data| - 1 else |data|)
            && (if end == Output.Broken then fd in s.srv.fds ==> fd in s'.srv.closing
                else fd in s.srv.fds ==> fd in s'.srv.fds)
  {
    hide Write, Close, Output.Write, WireOf, SetChannel, Output.Stream, Dry;
    WriteCases(s, fd, data, answers);
    var s' := Write(s, fd, data, answers);
    var (c, end) := Output.Write(WireOf(s.srv, fd).channel, data, answers);
    Output.WriteExact(WireOf(s.srv, fd).channel, data, answers);
    if end == Output.Broken {
      var s1 := s.(srv := SetChannel(s.srv, fd, c));
      SetWire(s.srv, fd, c);
      BareClosed(s1, fd);
    }
  }

  lemma BareClosed(s: State, fd: int)
    requires fd in s.srv.fds ==> s.srv.fds[fd] == Bare
    ensures var s' := Close(s, fd, false);
            && s' == s.(srv := s'.srv) && (fd in s.srv.fds ==> fd in s'.srv.closing)
            && s'.srv.fds == s.srv.fds - {fd} && (forall x :: x in s.srv.closing ==> x in s'.srv.closing)
            && (forall x :: x != fd ==> WireOf(s'.srv, x) == WireOf(s.srv, x))
            && WireOf(s'.srv, fd).stale == WireOf(s.srv, fd).stale && WireOf(s'.srv, fd).rcvd == WireOf(s.srv, fd).rcvd
            && Output.Stream(WireOf(s'.srv, fd).channel) == WireOf(s.srv, fd).channel.out
  {
    hide Close, Dry, WireOf, Output.Stream;
    DryMove(s.srv, fd);
    DryStream(s.srv, fd);
    if fd in s.srv.fds {
      CloseStep(s, fd);
      WiresOnly(Dry(s.srv, fd), Queue(Unwatch(Dry(s.srv, fd), fd), fd));
    } else {
      CloseGone(s, fd, false);
    }
  }

  lemma DryStream(srv: Server, fd: int)
    ensures Output.Stream(WireOf(Dry(srv, fd), fd).channel) == WireOf(srv, fd).channel.out
  {
    var out := WireOf(srv, fd).channel.out;
    assert out + [] == out;
  }

  /** on_remote_connect(OK) when something is lost: the remote has been queued for closing, or its
      stream stays short of the id and what was held back. */
  lemma ConnectedShort(s: State, r: int, c: int, idAnswers: seq<Output.Answer>, answers: seq<Output.Answer>)
    requires !Delivers(s, r, c, idAnswers, answers) && (s.withId ==> c in s.srv.c2s)
    requires r in s.srv.fds ==> s.srv.fds[r] == Bare
    requires c in s.tab.buf ==> c in s.tab.c2r && s.tab.c2r[c] == r && r in s.srv.fds
    ensures var s' := RemoteConnected(s, r, c, idAnswers, answers);
            && s' == State(s.withId, s'.srv, s.tab.(state := s.tab.state[c := Connected], buf := s.tab.buf - {c}))
            && (|| (AtMost(s.srv, s'.srv, r, |Header(s, c)| + |Saved(s.tab.buf, c)|) && r in s'.srv.closing)
                || AtMost(s.srv, s'.srv, r, |Header(s, c)| + |Saved(s.tab.buf, c)| - 1))
  {
    hide Write, SendId, AtMost;
    var s1, h := SendId(s, r, c, idAnswers), Header(s, c);
    SentAtMost(s, r, c, idAnswers);
    if c in s.tab.buf {
      var m := s.tab.buf[c];
      FlushIsWrite(s, r, c, idAnswers, answers);
      var s2 := s1.(tab := s.tab.(state := s.tab.state[c := Connected], buf := s.tab.buf - {c}));
      var s' := Write(s2, r, m, answers);
      MaybeBare(s.srv, s1.srv, r, |h|);
      BareWrite(s2, r, m, answers);
      AtMostTwice(s.srv, s1.srv, s'.srv, r, |h|, |m|);
      AtMostTwice(s.srv, s1.srv, s'.srv, r, |h| - 1, |m|);
      AtMostTwice(s.srv, s1.srv, s'.srv, r, |h|, |m| - 1);
    } else {
      assert s.tab.buf - {c} == s.tab.buf;
    }
  }

  lemma SentAtMost(s: State, r: int, c: int, answers: seq<Output.Answer>)
    requires r in s.srv.fds ==> s.srv.fds[r] == Bare
    ensures var s', h := SendId(s, r, c, answers), Header(s, c);
            && s' == s.(srv := s'.srv) && AtMost(s.srv, s'.srv, r, |h|)
            && (s.withId && Output.Fatal(WriteEnd(s.srv, r, h, answers)) ==> AtMost(s.srv, s'.srv, r, |h| - 1))
            && (s.withId && WriteEnd(s.srv, r, h, answers) == Output.Broken ==> r in s.srv.fds ==> r in s'.srv.closing)
            && (!(s.withId && WriteEnd(s.srv, r, h, answers) == Output.Broken) && r in s.srv.fds ==> r in s'.srv.fds)
  {
    hide Write, WireOf, Output.Stream;
    if s.withId {
      BareWrite(s, r, Header(s, c), answers);
    }
  }

  lemma MaybeBare(a: Server, b: Server, fd: int, size: int)
    requires AtMost(a, b, fd, size)
    ensures fd in b.fds ==> b.fds[fd] == Bare
  {
  }

  lemma AtMostTwice(a: Server, b: Server, d: Server, fd: int, x: int, y: int)
    ensures AtMost(a, b, fd, x) && AtMost(b, d, fd, y) ==> AtMost(a, d, fd, x + y)
  {
    hide Output.Stream, WireOf;
  }

  /** A broken pipe while announcing the client or sending what was held back. */
  predicate BreaksOff(s: State, r: int, c: int, idAnswers: seq<Output.Answer>, answers: seq<Output.Answer>) {
    || (s.withId && WriteEnd(s.srv, r, Header(s, c), idAnswers) == Output.Broken)
    || (c in s.tab.buf && WriteEnd(SendId(s, r, c, idAnswers).srv, r, s.tab.buf[c], answers) == Output.Broken)
  }

  lemma BrokenOff(s: State, r: int, c: int, idAnswers: seq<Output.Answer>, answers: seq<Output.Answer>)
    requires BreaksOff(s, r, c, idAnswers, answers) && (s.withId ==> c in s.srv.c2s)
    requires r in s.srv.fds && s.srv.fds[r] == Bare && c in s.tab.c2r && s.tab.c2r[c] == r
    ensures var s' := RemoteConnected(s, r, c, idAnswers, answers);
            && s' == State(s.withId, s'.srv, s.tab.(state := s.tab.state[c := Connected], buf := s.tab.buf - {c}))
            && r in s'.srv.closing
            && AtMost(s.srv, s'.srv, r,
                      |Header(s, c)| + |Saved(s.tab.buf, c)| - (if Saved(s.tab.buf, c) != [] then 1 else 0))
  {
    hide Write, SendId, AtMost;
    var s1, h := SendId(s, r, c, idAnswers), Header(s, c);
    SentAtMost(s, r, c, idAnswers);
    if c in s.tab.buf {
      var m := s.tab.buf[c];
      FlushIsWrite(s, r, c, idAnswers, answers);
      var s2 := s1.(tab := s.tab.(state := s.tab.state[c := Connected], buf := s.tab.buf - {c}));
      var s' := Write(s2, r, m, answers);
      MaybeBare(s.srv, s1.srv, r, |h|);
      BareWrite(s2, r, m, answers);
      AtMostTwice(s.srv, s1.srv, s'.srv, r, |h|, |m|);
      AtMostTwice(s.srv, s1.srv, s'.srv, r, |h| - 1, |m|);
      AtMostTwice(s.srv, s1.srv, s'.srv, r, |h|, |m| - 1);
      Growing(s1.srv, s'.srv, r, |m|);
      Growing(s1.srv, s'.srv, r, |m| - 1);
    } else {
      assert s.tab.buf - {c} == s.tab.buf;
    }
  }

  lemma Growing(a: Server, b: Server, fd: int, size: int)
    ensures AtMost(a, b, fd, size) ==> forall x :: x in a.closing ==> x in b.closing
  {
  }

  /** Without a broken pipe, or with nothing watched to be closed, only the remote's channel has changed. */
  lemma WriteTouches(s: State, fd: int, data: bytes, answers: seq<Output.Answer>)
    requires WriteEnd(s.srv, fd, data, answers) != Output.Broken || fd !in s.srv.fds
    ensures var s' := Write(s, fd, data, answers); s' == s.(srv := s'.srv) && Touched(s.srv, s'.srv, fd)
  {
    hide Write, Close, Output.Write, WireOf, SetChannel, Output.Stream, Dry, WriteLoses;
    WriteCases(s, fd, data, answers);
    EndOf(s.srv, fd, data, answers);
    if WriteEnd(s.srv, fd, data, answers) == Output.Broken {
      var (c, _) := Output.Write(WireOf(s.srv, fd).channel, data, answers);
      SetWire(s.srv, fd, c);
      CloseGone(s.(srv := SetChannel(s.srv, fd, c)), fd, false);
      DryMove(SetChannel(s.srv, fd, c), fd);
    }
  }

  lemma ConnectedTouches(s: State, r: int, c: int, idAnswers: seq<Output.Answer>, answers: seq<Output.Answer>)
    requires !BreaksOff(s, r, c, idAnswers, answers) || (r !in s.srv.fds && c !in s.tab.buf)
    requires (s.withId ==> c in s.srv.c2s) && (c in s.tab.buf ==> c in s.tab.c2r && s.tab.c2r[c] == r)
    ensures var s' := RemoteConnected(s, r, c, idAnswers, answers);
            && s' == State(s.withId, s'.srv, s.tab.(state := s.tab.state[c := Connected], buf := s.tab.buf - {c}))
            && Touched(s.srv, s'.srv, r)
  {
    hide Write, Touched, Header, WriteEnd;
    var s1 := SendId(s, r, c, idAnswers);
    TouchedNot(s.srv, r);
    if s.withId {
      WriteTouches(s, r, Header(s, c), idAnswers);
      HeaderBytes(s, c);
    }
    if c in s.tab.buf {
      var m := s.tab.buf[c];
      FlushIsWrite(s, r, c, idAnswers, answers);
      var s2 := s1.(tab := s.tab.(state := s.tab.state[c := Connected], buf := s.tab.buf - {c}));
      WriteTouches(s2, r, m, answers);
      TouchedTwice(s.srv, s1.srv, Write(s2, r, m, answers).srv, r);
    } else {
      assert s.tab.buf - {c} == s.tab.buf;
    }
  }

  lemma HeaderBytes(s: State, c: int)
    requires s.withId
    ensures Header(s, c) == BigEndian(4, Id(s.srv, c))
  {
  }

  lemma QueuedBreaks(s: State, fd: int)
    requires fd in s.srv.closing && fd in s.srv.fds && s.srv.fds[fd] != Bare
    ensures !Pairs(s)
  {
    assert !Open(s, fd);
  }

  /** The state in which on_remote_connect runs: CONNECT is taken off, nothing else is watched yet. */
  function Answering(s: State, r: int): State { s.(srv := Watch(s.srv, r, Bare)) }

  lemma DialedPairs(s: State, r: int, c: int, idAnswers: seq<Output.Answer>, answers: seq<Output.Answer>)
    requires Pairs(s) && r in s.srv.fds && s.srv.fds[r] == Dialing(c)
          && !BreaksOff(Answering(s, r), r, c, idAnswers, answers)
    ensures var s' := Step(s, Dialed(r, true, idAnswers, answers)); Pairs(s') && Spared(s, s', c)
  {
    hide RemoteConnected, Pairs, WireOf, BreaksOff, Spared;
    var _ := RemoteOf(s, r);
    PairsAt(s, c);
    Apart(s, c, c);
    var s0 := Answering(s, r);
    WiresOnly(s.srv, s0.srv);
    ConnectedTouches(s0, r, c, idAnswers, answers);
    var s1 := RemoteConnected(s0, r, c, idAnswers, answers);
    var s' := s1.(srv := Watch(s1.srv, r, Linked(c)));
    WiresOnly(s1.srv, s'.srv);
    WithinPairs(s, s', c, r);
    WithinSpared(s, s', c, r);
  }

  lemma DialedBreaks(s: State, r: int, c: int, idAnswers: seq<Output.Answer>, answers: seq<Output.Answer>)
    requires Pairs(s) && r in s.srv.fds && s.srv.fds[r] == Dialing(c)
          && BreaksOff(Answering(s, r), r, c, idAnswers, answers)
    ensures !Pairs(Step(s, Dialed(r, true, idAnswers, answers)))
  {
    hide RemoteConnected, Pairs, WireOf, BreaksOff, AtMost;
    var _ := RemoteOf(s, r);
    PairsAt(s, c);
    BrokenOff(Answering(s, r), r, c, idAnswers, answers);
    QueuedBreaks(Step(s, Dialed(r, true, idAnswers, answers)), r);
  }

  lemma RefusedPairs(s: State, r: int, c: int, idAnswers: seq<Output.Answer>, answers: seq<Output.Answer>)
    requires Pairs(s) && r in s.srv.fds && s.srv.fds[r] == Dialing(c)
    ensures var s' := Step(s, Dialed(r, false, idAnswers, answers)); Pairs(s') && Spared(s, s', c) && c !in s'.tab.c2r
  {
    hide Pairs, DialFailed, Spared;
    var _ := RemoteOf(s, r);
    Apart(s, c, c);
    DialFailTears(s, c, r);
    var s' := DialFailed(s.(srv := Unwatch(s.srv, r)), r, c);
    TornPairs(s, s', c, r);
    TornSpared(s, s', c, r);
  }

  /** A pair has come into being, on two numbers no connection had. */
  ghost predicate Born(s: State, s': State, c: int, r: int, x: ConnectState) {
    && s'.withId == s.withId
    && s'.tab == Register(s.tab.(state := s.tab.state[c := x]), c, r)
    && s'.srv.fds == s.srv.fds[r := if x == Connected then Linked(c) else Dialing(c)][c := Client]
    && s'.srv.opens == s.srv.opens + {c} + {r} && s'.srv.closing == s.srv.closing
    && c in s'.srv.c2s && 0 <= s'.srv.c2s[c] < 0x1_0000_0000
    && (forall k :: k != c ==>
          (k in s'.srv.c2s <==> k in s.srv.c2s) && (k in s.srv.c2s ==> s'.srv.c2s[k] == s.srv.c2s[k]))
    && (forall fd :: fd != c && fd != r ==> WireOf(s'.srv, fd) == WireOf(s.srv, fd))
  }

  lemma WatchedOpen(s: State, fd: int)
    requires Pairs(s)
    ensures fd in s.srv.fds && s.srv.fds[fd] != Bare ==> fd in s.srv.opens
  {
    assert fd in s.srv.fds && s.srv.fds[fd] != Bare ==> Open(s, fd);
  }

  lemma Unused(s: State, fd: int)
    requires Pairs(s) && fd !in s.srv.opens
    ensures fd !in s.tab.c2r && fd !in s.tab.r2c && fd !in s.tab.buf && fd !in s.tab.state && fd !in s.srv.closing
    ensures fd in s.srv.fds ==> s.srv.fds[fd] == Bare
  {
    WatchedOpen(s, fd);
    BareOutside(s, fd);
  }

  lemma BornPairs(s: State, s': State, c: int, r: int, x: ConnectState)
    requires Pairs(s) && c != r && c !in s.srv.opens && r !in s.srv.opens && Born(s, s', c, r, x)
    ensures Pairs(s')
  {
    hide WireOf;
    Unused(s, c);
    Unused(s, r);
    forall k | k in s'.tab.c2r ensures PairOf(s', k) {
      if k != c {
        assert PairOf(s, k);
      }
    }
    forall fd | fd in s'.srv.fds && s'.srv.fds[fd] != Bare ensures Open(s', fd) {
      if fd != c && fd != r {
        assert Open(s, fd);
      }
    }
  }

  lemma BornSpared(s: State, s': State, c: int, r: int, x: ConnectState)
    requires Pairs(s) && c != r && c !in s.srv.opens && r !in s.srv.opens && Born(s, s', c, r, x)
    ensures Spared(s, s', c) && c !in s.tab.c2r
  {
    hide WireOf, Pairs;
    Unused(s, c);
    Unused(s, r);
    forall k | k in s'.tab.c2r && k != c ensures Untouched(s, s', k) {
      PairsAt(s, k);
    }
  }

  lemma Opened(srv: Server, c: int, r: int)
    requires c != r
    ensures var a := OpenFd(NewClient(srv, c), r);
            && a == srv.(opens := srv.opens + {c} + {r}, wires := a.wires, c2s := a.c2s, sessions := a.sessions)
            && c in a.c2s && 0 <= a.c2s[c] < 0x1_0000_0000
            && (forall k :: k != c ==> (k in a.c2s <==> k in srv.c2s) && (k in srv.c2s ==> a.c2s[k] == srv.c2s[k]))
            && (forall fd :: fd != c && fd != r ==> WireOf(a, fd) == WireOf(srv, fd))
            && WireOf(a, c).rcvd == [] && Output.Stream(WireOf(a, c).channel) == WireOf(a, c).stale
            && WireOf(a, r).rcvd == [] && Output.Stream(WireOf(a, r).channel) == WireOf(a, r).stale
  {
  }

  /** The pair as it is when a ::connect has succeeded at once, before its callback runs. */
  function Opening(s: State, c: int, r: int): State {
    State(s.withId, OpenFd(NewClient(s.srv, c), r), s.tab.(state := s.tab.state[c := B4Connect]))
  }

  /** What a new pair starts with: whole, and whole in both ways unless the announcement lost something. */
  ghost predicate NewPair(s: State, s': State, c: int, upLost: bool) {
    && Pairs(s') && Spared(s, s', c) && c !in s.tab.c2r && c in s'.tab.c2r
    && Account(s', c, Up, upLost) && Account(s', c, Down, false)
  }

  lemma AcceptLater(s: State, c: int, r: int, idAnswers: seq<Output.Answer>, answers: seq<Output.Answer>)
    requires Pairs(s) && c != r && c !in s.srv.opens && r !in s.srv.opens
    ensures NewPair(s, Accepted(s, c, r, Later, idAnswers, answers), c, false)
  {
    hide Pairs, WireOf, Output.Stream, OpenFd, NewClient, Spared;
    var s' := Accepted(s, c, r, Later, idAnswers, answers);
    Opened(s.srv, c, r);
    Unused(s, c);
    var a := OpenFd(NewClient(s.srv, c), r);
    NothingYet(WireOf(a, r).stale);
    NothingYet(WireOf(a, c).stale);
    WiresOnly(a, s'.srv);
    assert s.tab.state[c := B4Connect][c := Connecting] == s.tab.state[c := Connecting];
    BornPairs(s, s', c, r, Connecting);
    BornSpared(s, s', c, r, Connecting);
  }

  lemma AtOnceBorn(s: State, c: int, r: int, idAnswers: seq<Output.Answer>, answers: seq<Output.Answer>)
    requires Pairs(s) && c != r && c !in s.srv.opens && r !in s.srv.opens
    requires r in s.srv.fds ==> !BreaksOff(Opening(s, c, r), r, c, idAnswers, answers)
    ensures var s', s0 := Accepted(s, c, r, AtOnce, idAnswers, answers), Opening(s, c, r);
            && Born(s, s', c, r, Connected) && r !in s'.srv.closing
            && Header(s', c) == Header(s0, c) && (forall x :: x != r ==> WireOf(s'.srv, x) == WireOf(s0.srv, x))
            && WireOf(s'.srv, r) == WireOf(RemoteConnected(s0, r, c, idAnswers, answers).srv, r)
            && WireOf(s'.srv, r).rcvd == [] && WireOf(s'.srv, r).stale == WireOf(s0.srv, r).stale
  {
    hide RemoteConnected, Pairs, WireOf, Output.Stream, OpenFd, NewClient, BreaksOff;
    var s' := Accepted(s, c, r, AtOnce, idAnswers, answers);
    Opened(s.srv, c, r);
    Unused(s, c);
    Unused(s, r);
    var s0 := Opening(s, c, r);
    ConnectedTouches(s0, r, c, idAnswers, answers);
    var s1 := RemoteConnected(s0, r, c, idAnswers, answers);
    WiresOnly(s1.srv, s'.srv);
    assert s.tab.state[c := B4Connect][c := Connected] == s.tab.state[c := Connected];
    assert s.tab.buf - {c} == s.tab.buf;
    assert s'.srv.fds == s.srv.fds[r := Linked(c)][c := Client];
  }

  lemma AcceptAtOnce(s: State, c: int, r: int, idAnswers: seq<Output.Answer>, answers: seq<Output.Answer>)
    requires Pairs(s) && c != r && c !in s.srv.opens && r !in s.srv.opens
    requires r in s.srv.fds ==> !BreaksOff(Opening(s, c, r), r, c, idAnswers, answers)
    ensures NewPair(s, Accepted(s, c, r, AtOnce, idAnswers, answers), c,
                    !Delivers(Opening(s, c, r), r, c, idAnswers, answers))
  {
    hide RemoteConnected, Pairs, WireOf, Output.Stream, OpenFd, NewClient, Delivers, BreaksOff, Spared, Header;
    var s', s0 := Accepted(s, c, r, AtOnce, idAnswers, answers), Opening(s, c, r);
    AtOnceBorn(s, c, r, idAnswers, answers);
    BornPairs(s, s', c, r, Connected);
    BornSpared(s, s', c, r, Connected);
    Opened(s.srv, c, r);
    Unused(s, c);
    Unused(s, r);
    NothingYet(Header(s0, c));
    NothingYet(WireOf(s0.srv, c).stale);
    if Delivers(s0, r, c, idAnswers, answers) {
      ConnectedEffect(s0, r, c, idAnswers, answers);
    } else {
      ConnectedShort(s0, r, c, idAnswers, answers);
    }
  }

  lemma AtOnceBreaks(s: State, c: int, r: int, idAnswers: seq<Output.Answer>, answers: seq<Output.Answer>)
    requires Pairs(s) && c != r && c !in s.srv.opens && r !in s.srv.opens && r in s.srv.fds
    requires BreaksOff(Opening(s, c, r), r, c, idAnswers, answers)
    ensures !Pairs(Accepted(s, c, r, AtOnce, idAnswers, answers))
  {
    hide RemoteConnected, Pairs, WireOf, Output.Stream, OpenFd, NewClient, AtMost, SendId, WriteEnd, Header;
    Opened(s.srv, c, r);
    Unused(s, c);
    Unused(s, r);
    var s0 := Opening(s, c, r);
    SentAtMost(s0, r, c, idAnswers);
    NoFlush(s0, r, c, idAnswers, answers);
    QueuedBreaks(Accepted(s, c, r, AtOnce, idAnswers, answers), r);
  }

  lemma NoFlush(s: State, r: int, c: int, idAnswers: seq<Output.Answer>, answers: seq<Output.Answer>)
    requires c !in s.tab.buf && (s.withId ==> c in s.srv.c2s)
    requires var s1 := SendId(s, r, c, idAnswers); s1 == s.(srv := s1.srv)
    ensures RemoteConnected(s, r, c, idAnswers, answers).srv == SendId(s, r, c, idAnswers).srv
  {
    hide SendId;
  }

  /** The client is watched after close(client) found it unwatched: it has no partner. */
  lemma AcceptFails(s: State, c: int, r: int, idAnswers: seq<Output.Answer>, answers: seq<Output.Answer>)
    requires Pairs(s) && c != r && c !in s.srv.opens && r !in s.srv.opens
    ensures !Pairs(Accepted(s, c, r, Fails, idAnswers, answers))
  {
    hide Pairs, OpenFd, NewClient, Close, EraseInfo, WireOf;
    Opened(s.srv, c, r);
    Unused(s, c);
    var s0 := Opening(s, c, r);
    var s1 := s0.(srv := Unwatch(s0.srv, r), tab := EraseInfo(s0.tab, c));
    EraseTwice(s0.tab, c);
    BareClosed(s1, c);
    CloseGone(Close(s1, c, false), r, true);
    Lonely(Accepted(s, c, r, Fails, idAnswers, answers), c);
  }

  lemma Lonely(s: State, c: int)
    requires c in s.srv.fds && s.srv.fds[c] == Client && c !in s.tab.c2r
    ensures !Pairs(s)
  {
    assert !Open(s, c);
  }

  lemma NothingYet(b: bytes)
    ensures b + [] == b
  {
  }

  // ---- What decides: pairing, and each stream by itself ----

  /** What keeps every client paired, whatever bytes the writes lose: no ::connect fails at once, and no pipe
      breaks under an upstream that on_remote_connect writes to while it is watched with no callback. */
  predicate Structural(s: State, e: Event)
    requires Enabled(s.srv, e)
  {
    match e
    case Accept(c, r, how, idAnswers, answers) =>
      how != Fails && (how == AtOnce && r in s.srv.fds ==> !BreaksOff(Opening(s, c, r), r, c, idAnswers, answers))
    case Dialed(r, ok, idAnswers, answers) =>
      ok ==> !BreaksOff(Answering(s, r), r, s.srv.fds[r].client, idAnswers, answers)
    case _ => true
  }

  /** What keeps one stream of one client's pair: the event does not write to its receiver, or loses nothing of it. */
  predicate Spares(s: State, e: Event, c: int, way: Way)
    requires Enabled(s.srv, e)
  {
    match e
    case Accept(client, r, how, idAnswers, answers) =>
      client == c && way == Up && how == AtOnce ==> Delivers(Opening(s, c, r), r, c, idAnswers, answers)
    case Data(client, message, answers) =>
      client == c && way == Up && StateOf(s.tab, c) == Connected ==>
        !WriteLoses(s.srv, RemoteFor(s.tab, c), message, answers)
    case RemoteData(r, message, answers) =>
      s.srv.fds[r].client == c && way == Down ==> !WriteLoses(s.srv, c, message, answers)
    case Dialed(r, ok, idAnswers, answers) =>
      s.srv.fds[r].client == c && way == Up && ok ==> Delivers(Answering(s, r), r, c, idAnswers, answers)
    case HasRoom(fd, answers) =>
      c in s.tab.c2r && Receiver(s, c, way) == fd ==> !Output.FinishLoses(WireOf(s.srv, fd).channel, answers)
    case _ => true
  }

  /** Exactly these events keep the pairs. */
  lemma StepPairsIff(s: State, e: Event)
    requires Pairs(s) && Enabled(s.srv, e)
    ensures Pairs(Step(s, e)) <==> Structural(s, e)
  {
    hide Pairs, OnMessage, Write, DialDone, Writable, HungUp, Accepted, Flushed, BreaksOff, Opening, Answering, Spared;
    match e {
      case Accept(c, r, how, idAnswers, answers) => AcceptPairsIff(s, c, r, how, idAnswers, answers);
      case Data(c, message, answers) => DataPairs(s, c, message, answers);
      case RemoteData(r, message, answers) => RemoteDataPairs(s, r, message, answers);
      case Dialed(r, ok, idAnswers, answers) =>
        var c := s.srv.fds[r].client;
        if !ok {
          RefusedPairs(s, r, c, idAnswers, answers);
        } else if BreaksOff(Answering(s, r), r, c, idAnswers, answers) {
          DialedBreaks(s, r, c, idAnswers, answers);
        } else {
          DialedPairs(s, r, c, idAnswers, answers);
        }
      case HasRoom(fd, answers) => RoomPairs(s, fd, answers);
      case Hangup(fd) => HangupPairs(s, fd);
      case BatchEnd => FlushPairs(s);
    }
  }

  lemma AcceptPairsIff(s: State, c: int, r: int, how: How, idAnswers: seq<Output.Answer>, answers: seq<Output.Answer>)
    requires Pairs(s) && c != r && c !in s.srv.opens && r !in s.srv.opens
    ensures Pairs(Accepted(s, c, r, how, idAnswers, answers))
       <==> how != Fails && (how == AtOnce && r in s.srv.fds ==> !BreaksOff(Opening(s, c, r), r, c, idAnswers, answers))
  {
    hide Pairs, Accepted, BreaksOff, Opening, Delivers, Spared, Account;
    if how == Fails {
      AcceptFails(s, c, r, idAnswers, answers);
    } else if how == Later {
      AcceptLater(s, c, r, idAnswers, answers);
    } else if r in s.srv.fds && BreaksOff(Opening(s, c, r), r, c, idAnswers, answers) {
      AtOnceBreaks(s, c, r, idAnswers, answers);
    } else {
      AcceptAtOnce(s, c, r, idAnswers, answers);
    }
  }

  // ---- The account of one stream over one event ----

  lemma Accounted(s: State, s': State, c: int, way: Way, lost: bool, now: bool, data: bytes)
    requires c in s.tab.c2r && c in s'.tab.c2r && Account(s, c, way, lost) && Held(s', c)
    requires Target(s', c, way) == Target(s, c, way) + data
    requires if now then |Sent(s', c, way)| < |Sent(s, c, way)| + |data| else Sent(s', c, way) == Sent(s, c, way) + data
    ensures Account(s', c, way, lost || now)
  {
    hide Target, Sent, Held;
  }

  lemma Same(s: State, s': State, c: int, way: Way, lost: bool)
    requires c in s.tab.c2r && c in s'.tab.c2r && Account(s, c, way, lost) && Held(s', c)
    requires Target(s', c, way) == Target(s, c, way) && Sent(s', c, way) == Sent(s, c, way)
    ensures Account(s', c, way, lost)
  {
    hide Target, Sent, Held;
  }

  lemma HeldAccount(s: State, c: int, message: bytes, answers: seq<Output.Answer>, way: Way, lost: bool)
    requires Pairs(s) && c in s.srv.fds && s.srv.fds[c].Client? && StateOf(s.tab, c) != Connected
    requires c in s.tab.c2r && Account(s, c, way, lost)
    ensures var s' := Step(s, Data(c, message, answers)); c in s'.tab.c2r && Account(s', c, way, lost)
  {
    hide Write, Output.Stream, Pairs;
    Apart(s, c, c);
    Same(s, Step(s, Data(c, message, answers)), c, way, lost);
  }

  lemma PassedAccount(s: State, c: int, message: bytes, answers: seq<Output.Answer>, way: Way, lost: bool)
    requires Pairs(s) && c in s.srv.fds && s.srv.fds[c].Client? && StateOf(s.tab, c) == Connected
    requires c in s.tab.c2r && Account(s, c, way, lost)
    ensures var s' := Step(s, Data(c, message, answers));
            c in s'.tab.c2r ==> Account(s', c, way, lost || !Spares(s, Data(c, message, answers), c, way))
    ensures var s' := Step(s, Data(c, message, answers)); !Spares(s, Data(c, message, answers), c, way) ==>
          c in s'.tab.c2r
  {
    hide Write, Output.Stream, Pairs, Spared, Output.Loses;
    Apart(s, c, c);
    var r, s0, s' := s.tab.c2r[c], Passing(s, c, message), Step(s, Data(c, message, answers));
    PassingStep(s, c, message, answers);
    PassingPairs(s, c, message);
    assert Saved(s.tab.buf, c) + message == message;
    WritePairs(s0, r, message, answers, c, r);
    LosesIsFailed(s0.srv, r, message, answers);
    if c in s'.tab.c2r {
      if way == Up {
        Assoc(WireOf(s.srv, r).stale, Header(s, c) + WireOf(s.srv, c).rcvd, message);
        Assoc(Header(s, c), WireOf(s.srv, c).rcvd, message);
        Accounted(s, s', c, way, lost, WriteLoses(s0.srv, r, message, answers), message);
      } else {
        Same(s, s', c, way, lost);
      }
    }
  }

  lemma LosesIsFailed(srv: Server, fd: int, data: bytes, answers: seq<Output.Answer>)
    ensures WriteLoses(srv, fd, data, answers) ==> WriteEnd(srv, fd, data, answers) != Output.Broken
  {
    hide Output.Write;
  }

  lemma RemoteDataAccount(s: State, r: int, message: bytes, answers: seq<Output.Answer>, way: Way, lost: bool)
    requires Pairs(s) && r in s.srv.fds && s.srv.fds[r].Linked?
    requires var c := s.srv.fds[r].client; c in s.tab.c2r && Account(s, c, way, lost)
    ensures var s', e, c := Step(s, RemoteData(r, message, answers)), RemoteData(r, message, answers),
          s.srv.fds[r].client;
            && (c in s'.tab.c2r ==> Account(s', c, way, lost || !Spares(s, e, c, way)))
            && (!Spares(s, e, c, way) ==> c in s'.tab.c2r)
  {
    hide Write, Output.Stream, Pairs, Spared, Output.Loses, WireOf, Received, Account, Shorted, Wrote;
    var c := RemoteOf(s, r);
    Apart(s, c, c);
    var s0, s' := s.(srv := Received(s.srv, r, message)), Step(s, RemoteData(r, message, answers));
    ReceivedPairs(s, r, c, message);
    WritePairs(s0, c, message, answers, c, r);
    LosesIsFailed(s0.srv, c, message, answers);
    ReceivedChannel(s.srv, r, message, c);
    if c in s'.tab.c2r {
      DownStream(s, s', r, c, message, way, lost, WriteLoses(s0.srv, c, message, answers));
    }
  }

  lemma ReceivedChannel(srv: Server, fd: int, message: bytes, x: int)
    ensures WireOf(Received(srv, fd, message), x).channel == WireOf(srv, x).channel
  {
  }

  /** The remote's bytes, written to the client. */
  lemma DownStream(s: State, s': State, r: int, c: int, message: bytes, way: Way, lost: bool, now: bool)
    requires c in s.tab.c2r && s.tab.c2r[c] == r && c != r && Account(s, c, way, lost)
    requires var a := Received(s.srv, r, message);
             s' == s.(srv := s'.srv) && if now then Shorted(a, s'.srv, c, |message|) else Wrote(a, s'.srv, c, message)
    ensures Account(s', c, way, lost || (now && way == Down))
  {
    hide Output.Stream;
    if way == Down {
      Assoc(WireOf(s.srv, c).stale, WireOf(s.srv, r).rcvd, message);
      Accounted(s, s', c, way, lost, now, message);
    } else {
      Same(s, s', c, way, lost);
    }
  }

  lemma DialedAccount(s: State, r: int, c: int, idAnswers: seq<Output.Answer>, answers: seq<Output.Answer>, way: Way,
      lost: bool)
    requires Pairs(s) && r in s.srv.fds && s.srv.fds[r] == Dialing(c)
          && !BreaksOff(Answering(s, r), r, c, idAnswers, answers)
    requires c in s.tab.c2r && Account(s, c, way, lost)
    ensures var s', e := Step(s, Dialed(r, true, idAnswers, answers)), Dialed(r, true, idAnswers, answers);
            c in s'.tab.c2r && Account(s', c, way, lost || !Spares(s, e, c, way))
  {
    hide RemoteConnected, Pairs, WireOf, Output.Stream, Delivers, BreaksOff, Spared, Header;
    var _ := RemoteOf(s, r);
    PairsAt(s, c);
    Apart(s, c, c);
    var s0 := Answering(s, r);
    WiresOnly(s.srv, s0.srv);
    SameHeader(s, s0, c);
    ConnectedTouches(s0, r, c, idAnswers, answers);
    var s1 := RemoteConnected(s0, r, c, idAnswers, answers);
    var s' := s1.(srv := Watch(s1.srv, r, Linked(c)));
    WiresOnly(s1.srv, s'.srv);
    SameHeader(s, s', c);
    if way == Up {
      var stale, data := WireOf(s.srv, r).stale, Header(s, c) + WireOf(s.srv, c).rcvd;
      assert stale + [] + data == stale + data;
      if Delivers(s0, r, c, idAnswers, answers) {
        ConnectedEffect(s0, r, c, idAnswers, answers);
      } else {
        ConnectedShort(s0, r, c, idAnswers, answers);
        assert r !in s.srv.closing by { OpenAt(s, r); }
      }
      Accounted(s, s', c, way, lost, !Delivers(s0, r, c, idAnswers, answers), data);
    } else {
      Same(s, s', c, way, lost);
    }
  }

  lemma OpenAt(s: State, fd: int)
    requires Pairs(s) && fd in s.srv.fds && s.srv.fds[fd] != Bare
    ensures fd !in s.srv.closing && fd in s.srv.opens
  {
    assert Open(s, fd);
  }

  lemma SameHeader(s: State, s': State, c: int)
    requires s'.withId == s.withId && s'.srv.c2s == s.srv.c2s
    ensures Header(s', c) == Header(s, c)
  {
  }

  lemma RoomAccount(s: State, fd: int, answers: seq<Output.Answer>, way: Way, lost: bool)
    requires Pairs(s) && fd in s.srv.opens && fd in s.srv.fds && !s.srv.fds[fd].Dialing? && s.srv.fds[fd] != Bare
    requires var c := OwnerOf(s, fd); c in s.tab.c2r && Account(s, c, way, lost)
    ensures var s', e, c := Writable(s, fd, answers), HasRoom(fd, answers), OwnerOf(s, fd);
            && (c in s'.tab.c2r ==> Account(s', c, way, lost || !Spares(s, e, c, way)))
            && (!Spares(s, e, c, way) ==> c in s'.tab.c2r)
  {
    hide Writable, Output.Stream, Pairs, WireOf, Spared, Output.Finish, Account, Shorted, Wrote;
    var s', c := Writable(s, fd, answers), OwnerOf(s, fd);
    RoomPairs(s, fd, answers);
    Apart(s, c, c);
    if c in s'.tab.c2r {
      RoomStream(s, s', fd, c, way, lost, Output.FinishLoses(WireOf(s.srv, fd).channel, answers));
    }
  }

  lemma RoomStream(s: State, s': State, fd: int, c: int, way: Way, lost: bool, now: bool)
    requires c in s.tab.c2r && Account(s, c, way, lost)
    requires s' == s.(srv := s'.srv) && if now then Shorted(s.srv, s'.srv, fd, 0) else Wrote(s.srv, s'.srv, fd, [])
    ensures Account(s', c, way, lost || (now && Receiver(s, c, way) == fd))
  {
    hide Output.Stream, WireOf;
    SameHeader(s, s', c);
    if Receiver(s, c, way) == fd {
      assert Target(s, c, way) + [] == Target(s, c, way) && Sent(s, c, way) + [] == Sent(s, c, way);
      Accounted(s, s', c, way, lost, now, []);
    } else {
      Same(s, s', c, way, lost);
    }
  }

  /** The client an event is about. */
  function Concerned(s: State, e: Event): int
    requires Enabled(s.srv, e)
  {
    match e
    case Accept(c, _, _, _, _) => c
    case Data(c, _, _) => c
    case RemoteData(r, _, _) => s.srv.fds[r].client
    case Dialed(r, _, _, _) => s.srv.fds[r].client
    case HasRoom(fd, _) => OwnerOf(s, fd)
    case Hangup(fd) => OwnerOf(s, fd)
    case BatchEnd => 0
  }

  /** All other pairs are left as they were. */
  lemma OthersSpared(s: State, e: Event)
    requires Pairs(s) && Enabled(s.srv, e) && Structural(s, e)
    ensures Spared(s, Step(s, e), Concerned(s, e))
  {
    hide Pairs, OnMessage, Write, DialDone, Writable, HungUp, Accepted, Flushed, BreaksOff, Opening, Answering, Spared;
    hide Delivers, Account;
    match e {
      case Accept(c, r, how, idAnswers, answers) =>
        if how == Later {
          AcceptLater(s, c, r, idAnswers, answers);
        } else {
          AcceptAtOnce(s, c, r, idAnswers, answers);
        }
      case Data(c, message, answers) => DataPairs(s, c, message, answers);
      case RemoteData(r, message, answers) => RemoteDataPairs(s, r, message, answers);
      case Dialed(r, ok, idAnswers, answers) =>
        if ok {
          DialedPairs(s, r, s.srv.fds[r].client, idAnswers, answers);
        } else {
          RefusedPairs(s, r, s.srv.fds[r].client, idAnswers, answers);
        }
      case HasRoom(fd, answers) => RoomPairs(s, fd, answers);
      case Hangup(fd) => HangupPairs(s, fd);
      case BatchEnd => FlushPairs(s);
    }
  }

  lemma OthersSpare(s: State, e: Event, c: int, way: Way)
    requires Pairs(s) && Enabled(s.srv, e) && c != Concerned(s, e)
    ensures Spares(s, e, c, way)
  {
    hide Delivers, WriteLoses, Output.FinishLoses, WireOf;
    if e.HasRoom? && c in s.tab.c2r {
      PairsAt(s, c);
    }
  }

  /** One event over one stream of one pair that is there afterwards: the account goes on, with a loss if and only
      if the event was not one to spare it. A new pair starts with none. */
  lemma StepAccount(s: State, e: Event, c: int, way: Way, lost: bool)
    requires Pairs(s) && Enabled(s.srv, e) && Structural(s, e) && c in Step(s, e).tab.c2r
    requires if c in s.tab.c2r then Account(s, c, way, lost) else !lost
    ensures Account(Step(s, e), c, way, lost || !Spares(s, e, c, way))
  {
    hide Pairs, Account, OnMessage, Write, DialDone, Writable, HungUp, Accepted, Flushed, BreaksOff, Opening, Answering;
    hide Spared, Untouched, Delivers, WriteLoses, Output.FinishLoses, WireOf;
    if c != Concerned(s, e) || e == BatchEnd {
      OtherAccount(s, e, c, way, lost);
    } else {
      OwnAccount(s, e, c, way, lost);
    }
  }

  lemma OtherAccount(s: State, e: Event, c: int, way: Way, lost: bool)
    requires Pairs(s) && Enabled(s.srv, e) && Structural(s, e) && c in Step(s, e).tab.c2r
    requires if c in s.tab.c2r then Account(s, c, way, lost) else !lost
    requires c != Concerned(s, e) || e == BatchEnd
    ensures Account(Step(s, e), c, way, lost || !Spares(s, e, c, way))
  {
    hide Pairs, Account, Step, Untouched, Concerned, Structural, Spares;
    if e == BatchEnd {
      FlushSpared(s, c);
      UntouchedAccount(s, Step(s, e), c, way, lost);
    } else {
      OthersSpared(s, e);
      OthersSpare(s, e, c, way);
      UntouchedIn(s, Step(s, e), c);
      UntouchedAccount(s, Step(s, e), c, way, lost);
    }
  }

  lemma UntouchedIn(s: State, s': State, c: int)
    requires c in s'.tab.c2r && Untouched(s, s', c)
    ensures c in s.tab.c2r
  {
  }

  lemma FlushSpared(s: State, c: int)
    requires c in Step(s, BatchEnd).tab.c2r
    ensures Untouched(s, Step(s, BatchEnd), c) && forall way :: Spares(s, BatchEnd, c, way)
  {
  }

  lemma OwnAccount(s: State, e: Event, c: int, way: Way, lost: bool)
    requires Pairs(s) && Enabled(s.srv, e) && Structural(s, e) && c in Step(s, e).tab.c2r
    requires if c in s.tab.c2r then Account(s, c, way, lost) else !lost
    requires c == Concerned(s, e) && e != BatchEnd
    ensures Account(Step(s, e), c, way, lost || !Spares(s, e, c, way))
  {
    hide Pairs, Account, OnMessage, Write, DialDone, Writable, HungUp, Accepted, Flushed, BreaksOff, Opening, Answering;
    hide Spared, Delivers, WriteLoses, Output.FinishLoses, WireOf;
    match e {
      case Accept(client, r, how, idAnswers, answers) =>
        if how == Later {
          AcceptLater(s, c, r, idAnswers, answers);
        } else {
          AcceptAtOnce(s, c, r, idAnswers, answers);
        }
      case Data(client, message, answers) =>
        ClientOf(s, c);
        if StateOf(s.tab, c) != Connected {
          HeldAccount(s, c, message, answers, way, lost);
        } else {
          PassedAccount(s, c, message, answers, way, lost);
        }
      case RemoteData(r, message, answers) =>
        var _ := RemoteOf(s, r);
        RemoteDataAccount(s, r, message, answers, way, lost);
      case Dialed(r, ok, idAnswers, answers) =>
        var _ := RemoteOf(s, r);
        if ok {
          DialedAccount(s, r, c, idAnswers, answers, way, lost);
        } else {
          RefusedPairs(s, r, c, idAnswers, answers);
        }
      case HasRoom(fd, answers) =>
        RoomPairs(s, fd, answers);
        if fd !in s.srv.fds || s.srv.fds[fd] == Bare {
          BareOutside(s, fd);
        } else {
          RoomAccount(s, fd, answers, way, lost);
        }
      case Hangup(fd) => HangupPairs(s, fd);
    }
  }

  // ---- All pairs and all streams together ----

  ghost predicate Harmless(s: State, e: Event)
    requires Enabled(s.srv, e)
  {
    Structural(s, e) && forall c, way :: Spares(s, e, c, way)
  }

  lemma LossSurvives(s: State, e: Event, c: int, way: Way)
    requires Inv(s) && Enabled(s.srv, e) && Structural(s, e) && !Spares(s, e, c, way)
    ensures c in Step(s, e).tab.c2r
  {
    hide Pairs, OnMessage, Write, DialDone, Writable, HungUp, Accepted, Flushed, BreaksOff, Opening, Answering;
    hide Spared, Delivers, WriteLoses, Output.FinishLoses, WireOf, Account, NewPair;
    OthersSpareNot(s, e, c, way);
    match e {
      case Accept(client, r, how, idAnswers, answers) => AtOnceThere(s, c, r, idAnswers, answers);
      case Data(client, message, answers) =>
        ClientOf(s, c);
        assert Account(s, c, way, false);
        PassedAccount(s, c, message, answers, way, false);
      case RemoteData(r, message, answers) =>
        var _ := RemoteOf(s, r);
        assert Account(s, c, way, false);
        RemoteDataAccount(s, r, message, answers, way, false);
      case Dialed(r, ok, idAnswers, answers) =>
        var _ := RemoteOf(s, r);
        assert Account(s, c, way, false);
        DialedAccount(s, r, c, idAnswers, answers, way, false);
      case HasRoom(fd, answers) =>
        if fd !in s.srv.fds || s.srv.fds[fd] == Bare {
          BareOutside(s, fd);
        } else {
          RoomPairs(s, fd, answers);
          assert Account(s, c, way, false);
          RoomAccount(s, fd, answers, way, false);
        }
      case Hangup(_) =>
      case BatchEnd =>
    }
  }

  lemma OthersSpareNot(s: State, e: Event, c: int, way: Way)
    requires Pairs(s) && Enabled(s.srv, e) && !Spares(s, e, c, way)
    ensures c == Concerned(s, e) && !e.Hangup? && e != BatchEnd
  {
    hide Pairs, Spares;
    if c != Concerned(s, e) {
      OthersSpare(s, e, c, way);
    }
    if e.Hangup? || e == BatchEnd {
      EndsSpare(s, e, c, way);
    }
  }

  lemma EndsSpare(s: State, e: Event, c: int, way: Way)
    requires Enabled(s.srv, e) && (e.Hangup? || e == BatchEnd)
    ensures Spares(s, e, c, way)
  {
  }

  lemma AtOnceThere(s: State, c: int, r: int, idAnswers: seq<Output.Answer>, answers: seq<Output.Answer>)
    requires Pairs(s) && c != r && c !in s.srv.opens && r !in s.srv.opens
    requires r in s.srv.fds ==> !BreaksOff(Opening(s, c, r), r, c, idAnswers, answers)
    ensures c in Accepted(s, c, r, AtOnce, idAnswers, answers).tab.c2r
  {
    hide Pairs, Accepted, BreaksOff, Opening, Delivers, Spared, Account;
    AcceptAtOnce(s, c, r, idAnswers, answers);
  }

  lemma OneAccount(s: State, c: int, way: Way, lost: bool)
    requires c in s.tab.c2r && Account(s, c, way, lost)
    ensures Account(s, c, way, false) <==> !lost
  {
    hide Target, Sent, Held;
  }

  /** Exactly the harmless events keep all pairs and all streams. */
  lemma StepKeepsIff(s: State, e: Event)
    requires Inv(s) && Enabled(s.srv, e)
    ensures Inv(Step(s, e)) <==> Harmless(s, e)
  {
    hide Pairs, Account, Step, Structural, Spares;
    StepPairsIff(s, e);
    if Structural(s, e) {
      forall c, way ensures c in Step(s, e).tab.c2r ==> (Account(Step(s, e), c, way, false) <==> Spares(s, e, c, way))
      {
        if c in Step(s, e).tab.c2r {
          assert c in s.tab.c2r ==> Account(s, c, way, false);
          StepAccount(s, e, c, way, false);
          OneAccount(Step(s, e), c, way, !Spares(s, e, c, way));
        }
      }
      forall c, way ensures c !in Step(s, e).tab.c2r ==> Spares(s, e, c, way) {
        if !Spares(s, e, c, way) {
          LossSurvives(s, e, c, way);
        }
      }
    }
  }

  // ---- Whole runs ----

  /** Of all pairs and streams, or of the pairs alone. */
  ghost predicate InOrder(s: State, streams: bool) { if streams then Inv(s) else Pairs(s) }

  ghost predicate KeptAt(withId: bool, events: seq<Event>, i: nat, streams: bool)
    requires i < |events|
  {
    var s := Run(withId, events[..i]);
    Enabled(s.srv, events[i]) ==> if streams then Harmless(s, events[i]) else Structural(s, events[i])
  }

  ghost predicate KeptRun(withId: bool, events: seq<Event>, streams: bool) {
    forall i :: 0 <= i < |events| ==> KeptAt(withId, events, i, streams)
  }

  /** Every event was structural, or harmless, at its turn. */
  ghost predicate StructuralRun(withId: bool, events: seq<Event>) { KeptRun(withId, events, false) }

  ghost predicate HarmlessRun(withId: bool, events: seq<Event>) { KeptRun(withId, events, true) }

  lemma StepInOrder(withId: bool, events: seq<Event>, streams: bool)
    requires events != [] && InOrder(Run(withId, events[..|events| - 1]), streams)
    ensures InOrder(Run(withId, events), streams) <==> KeptAt(withId, events, |events| - 1, streams)
  {
    hide Inv, Pairs, Step, Harmless, Structural;
    var front, last := events[..|events| - 1], events[|events| - 1];
    var s := Run(withId, front);
    if !Enabled(s.srv, last) {
      Refused(s, last);
    } else if streams {
      StepKeepsIff(s, last);
    } else {
      StepPairsIff(s, last);
    }
  }

  lemma {:induction false} RunInOrder(withId: bool, events: seq<Event>, streams: bool)
    ensures (forall i :: 0 <= i <= |events| ==> InOrder(Run(withId, events[..i]), streams))
          <==> KeptRun(withId, events, streams)
    decreases |events|
  {
    hide InOrder, Step, KeptAt;
    if events == [] {
      StartInOrder(withId, streams);
      assert events[..0] == events;
    } else {
      var front, n := events[..|events| - 1], |events| - 1;
      RunInOrder(withId, front, streams);
      assert forall i :: 0 <= i <= n ==> front[..i] == events[..i];
      assert events[..|events|] == events && front == events[..n];
      forall i | 0 <= i < n ensures KeptAt(withId, front, i, streams) == KeptAt(withId, events, i, streams) {
        SameTurn(withId, front, events, i, streams);
      }
      assert KeptRun(withId, events, streams)
          <==> KeptRun(withId, front, streams) && KeptAt(withId, events, n, streams);
      if InOrder(Run(withId, front), streams) {
        StepInOrder(withId, events, streams);
      }
    }
  }

  lemma SameTurn(withId: bool, front: seq<Event>, events: seq<Event>, i: nat, streams: bool)
    requires i < |front| && front <= events
    ensures KeptAt(withId, front, i, streams) == KeptAt(withId, events, i, streams)
  {
    assert front[..i] == events[..i];
  }

  lemma StartInOrder(withId: bool, streams: bool)
    ensures InOrder(Start(withId), streams)
  {
  }

  lemma Refused(s: State, e: Event)
    requires !Enabled(s.srv, e)
    ensures Step(s, e) == s
  {
  }

  lemma SameKind(s: State, e: Event)
    ensures Step(s, e).withId == s.withId
  {
    hide Close, OnClose, OnRemoteClose, DialFailed, Output.Write, Output.Finish, WireOf, SetChannel, AutoRewatch;
  }

  /** Every client is paired after every prefix of a run if and only if every event was structural at its turn. */
  lemma RunPairsIff(withId: bool, events: seq<Event>)
    ensures (forall i :: 0 <= i <= |events| ==> Pairs(Run(withId, events[..i]))) <==> StructuralRun(withId, events)
  {
    hide Pairs, Run, KeptRun;
    RunInOrder(withId, events, false);
    assert forall i :: 0 <= i <= |events| ==>
        (InOrder(Run(withId, events[..i]), false) <==> Pairs(Run(withId, events[..i])));
  }

  /** And all streams are whole, too, if and only if every event was harmless at its turn. */
  lemma RunKeepsIff(withId: bool, events: seq<Event>)
    ensures (forall i :: 0 <= i <= |events| ==> Inv(Run(withId, events[..i]))) <==> HarmlessRun(withId, events)
  {
    hide Inv, Run, KeptRun;
    RunInOrder(withId, events, true);
    assert forall i :: 0 <= i <= |events| ==>
        (InOrder(Run(withId, events[..i]), true) <==> Inv(Run(withId, events[..i])));
  }

  lemma RunPairs(withId: bool, events: seq<Event>)
    requires StructuralRun(withId, events)
    ensures Pairs(Run(withId, events))
  {
    hide Pairs, Run, StructuralRun;
    RunPairsIff(withId, events);
    assert events[..|events|] == events;
  }

  lemma {:induction false} RunKind(withId: bool, events: seq<Event>)
    ensures Run(withId, events).withId == withId
    decreases |events|
  {
    hide Step;
    if events != [] {
      RunKind(withId, events[..|events| - 1]);
      SameKind(Run(withId, events[..|events| - 1]), events[|events| - 1]);
    }
  }

  /** Nothing of this stream of the client's pair was lost since the client was accepted. */
  predicate Clean(withId: bool, events: seq<Event>, c: int, way: Way)
    decreases |events|
  {
    events != [] &&
    var front, last := events[..|events| - 1], events[|events| - 1];
    var s := Run(withId, front);
    && (Enabled(s.srv, last) ==> Spares(s, last, c, way))
    && (c in s.tab.c2r ==> Clean(withId, front, c, way))
  }

  lemma StructuralFront(withId: bool, events: seq<Event>)
    requires events != [] && StructuralRun(withId, events)
    ensures var front, last := events[..|events| - 1], events[|events| - 1];
            && StructuralRun(withId, front)
            && (Enabled(Run(withId, front).srv, last) ==> Structural(Run(withId, front), last))
  {
    hide Run, Structural;
    var front := events[..|events| - 1];
    assert KeptAt(withId, events, |events| - 1, false);
    forall i | 0 <= i < |front| ensures KeptAt(withId, front, i, false) {
      assert KeptAt(withId, events, i, false);
      SameTurn(withId, front, events, i, false);
    }
  }

  lemma {:induction false} RunAccount(withId: bool, events: seq<Event>, c: int, way: Way)
    requires StructuralRun(withId, events) && c in Run(withId, events).tab.c2r
    ensures Account(Run(withId, events), c, way, !Clean(withId, events, c, way))
    decreases |events|
  {
    hide StructuralRun, Account, Step, Spares, Structural;
    if events != [] {
      var front, last := events[..|events| - 1], events[|events| - 1];
      var s := Run(withId, front);
      StructuralFront(withId, events);
      RunPairs(withId, front);
      if c in s.tab.c2r {
        RunAccount(withId, front, c, way);
      }
      if Enabled(s.srv, last) {
        StepAccount(s, last, c, way, c in s.tab.c2r && !Clean(withId, front, c, way));
      } else {
        Refused(s, last);
      }
    }
  }

  /** Stream fidelity, of each pair by itself. In every run of structural events, for every live pair: the bytes
      received from the client are what the kernel took for the remote, then what the remote is owed, then what the
      tunnel holds, in order, after whatever was owed under the remote's number before and the session id when one is
      sent, if and only if no write of this stream lost anything since the client was accepted; otherwise bytes are
      missing. What the tunnel holds is nothing once connected. The same of the bytes received from the remote. So a
      stream is exactly the received bytes if and only if also nothing was owed under the number before. */
  lemma TunnelFidelity(withId: bool, events: seq<Event>, c: int)
    requires StructuralRun(withId, events) && c in Run(withId, events).tab.c2r
    ensures var s := Run(withId, events);
            var up, down := WireOf(s.srv, s.tab.c2r[c]), WireOf(s.srv, c);
            var header := if withId && StateOf(s.tab, c) == Connected then BigEndian(4, Id(s.srv, c)) else [];
            var upward := up.channel.out + Output.Owed(up.channel.waiting) + Saved(s.tab.buf, c);
            var downward := down.channel.out + Output.Owed(down.channel.waiting);
            && (StateOf(s.tab, c) == Connected ==> Saved(s.tab.buf, c) == [])
            && (if Clean(withId, events, c, Up)
                then upward == up.stale + (header + down.rcvd) && (upward == header + down.rcvd <==> up.stale == [])
                else |upward| < |up.stale| + |header| + |down.rcvd|)
            && (if Clean(withId, events, c, Down)
                then downward == down.stale + up.rcvd && (downward == up.rcvd <==> down.stale == [])
                else |downward| < |down.stale| + |up.rcvd|)
  {
    hide Run, Pairs, WireOf, Clean, StructuralRun;
    RunAccount(withId, events, c, Up);
    RunAccount(withId, events, c, Down);
    RunKind(withId, events);
    var s := Run(withId, events);
    var r := s.tab.c2r[c];
    var up, down := WireOf(s.srv, r), WireOf(s.srv, c);
    OnlyEmpty(up.stale, Due(s, c));
    OnlyEmpty(down.stale, up.rcvd);
    if StateOf(s.tab, c) == Connected {
      NothingYet(up.channel.out + Output.Owed(up.channel.waiting));
    } else {
      NothingYet(up.stale);
      OnlyEmpty(up.stale, down.rcvd);
      assert [] + down.rcvd == down.rcvd;
    }
  }

  /** Leftovers do occur: in any structural run with a connected pair, let the remote send bytes the kernel has no
      room for, the client hang up, the batch end, and the next client be accepted under the same number.
      The run is still structural and nothing was lost, and the new client is owed first what the old one was. */
  lemma LeftoverReached(withId: bool, events: seq<Event>, c: int, r: int, r2: int, m: bytes)
    requires StructuralRun(withId, events) && RoleOf(Run(withId, events), r) == Linked(c)
    requires c != r2 && r2 !in Run(withId, events).srv.opens
    ensures var es := events + [RemoteData(r, m, []), Hangup(c), BatchEnd, Accept(c, r2, Later, [], [])];
            && StructuralRun(withId, es) && c in Run(withId, es).tab.c2r
            && Clean(withId, es, c, Up) && Clean(withId, es, c, Down)
            && WireOf(Run(withId, es).srv, c).stale
               == Output.Owed(WireOf(Run(withId, events).srv, c).channel.waiting) + m
  {
    hide Run, StructuralRun, Pairs, Step, WireOf, Enabled, Structural, Spares, Clean;
    RunPairs(withId, events);
    var s, es1 := Run(withId, events), events + [RemoteData(r, m, [])];
    var es2, es3 := es1 + [Hangup(c)], es1 + [Hangup(c)] + [BatchEnd];
    var last := Accept(c, r2, Later, [], []);
    assert events + [RemoteData(r, m, []), Hangup(c), BatchEnd, last] == es3 + [last];
    PairedStates(s, c, r);
    BlockedMessage(s, c, r, m);
    OneMore(withId, events, RemoteData(r, m, []));
    var s1 := Run(withId, es1);
    PairedStates(s1, c, r);
    HangupLeaves(s1, c, r);
    OneMore(withId, es1, Hangup(c));
    EndOfBatch(Run(withId, es2));
    OneMore(withId, es2, BatchEnd);
    NextClient(Run(withId, es3), c, r2);
    OneMore(withId, es3, last);
    Unused(Run(withId, es3), c);
    NewlyClean(withId, es3, last, c);
  }

  lemma NewlyClean(withId: bool, events: seq<Event>, e: Event, c: int)
    requires var s := Run(withId, events);
             c !in s.tab.c2r && (Enabled(s.srv, e) ==> Spares(s, e, c, Up) && Spares(s, e, c, Down))
    ensures Clean(withId, events + [e], c, Up) && Clean(withId, events + [e], c, Down)
  {
    hide Run, Enabled, Spares;
    assert (events + [e])[..|events|] == events;
  }

  lemma PairedStates(s: State, c: int, r: int)
    requires Pairs(s) && RoleOf(s, r) == Linked(c)
    ensures PairIn(s, c, r) && c in s.srv.opens
  {
    var _ := RemoteOf(s, r);
    Apart(s, c, c);
    assert Open(s, c);
  }

  lemma OneMore(withId: bool, events: seq<Event>, e: Event)
    requires StructuralRun(withId, events)
    requires var s := Run(withId, events); Enabled(s.srv, e) ==> Structural(s, e)
    ensures StructuralRun(withId, events + [e]) && Run(withId, events + [e]) == Step(Run(withId, events), e)
    ensures Pairs(Run(withId, events)) && Pairs(Run(withId, events + [e]))
  {
    hide Step, Enabled, Structural, Pairs;
    var es := events + [e];
    assert es[..|events|] == events;
    forall i | 0 <= i < |es| ensures KeptAt(withId, es, i, false) {
      if i < |events| {
        assert KeptAt(withId, events, i, false);
        SameTurn(withId, events, es, i, false);
      }
    }
    RunPairs(withId, events);
    RunPairs(withId, es);
  }

  lemma BlockedMessage(s: State, c: int, r: int, m: bytes)
    requires PairIn(s, c, r) && s.srv.fds[r] == Linked(c)
    ensures var s', e := Step(s, RemoteData(r, m, [])), RemoteData(r, m, []);
            && Enabled(s.srv, e) && Structural(s, e)
            && s'.srv.fds == s.srv.fds && s'.srv.opens == s.srv.opens
            && Output.Owed(WireOf(s'.srv, c).channel.waiting) == Output.Owed(WireOf(s.srv, c).channel.waiting) + m
  {
    hide Close;
    var w := WireOf(s.srv, c).channel;
    assert m[0..] == m && [] + m == m;
  }

  lemma EndOfBatch(s: State)
    ensures var s' := Step(s, BatchEnd);
            && Enabled(s.srv, BatchEnd) && Structural(s, BatchEnd)
            && (forall fd :: fd in s'.srv.opens <==> fd in s.srv.opens && fd !in s.srv.closing)
            && (forall fd :: WireOf(s'.srv, fd) == WireOf(s.srv, fd))
  {
  }

  lemma NextClient(s: State, c: int, r: int)
    requires c !in s.srv.opens && r !in s.srv.opens && c != r
    ensures var s', e := Step(s, Accept(c, r, Later, [], [])), Accept(c, r, Later, [], []);
            && Enabled(s.srv, e) && Structural(s, e) && c in s'.tab.c2r && Spares(s, e, c, Up) && Spares(s, e, c, Down)
            && WireOf(s'.srv, c).stale == Output.Owed(WireOf(s.srv, c).channel.waiting)
  {
    hide Dry, Close;
  }

  lemma HangupLeaves(s: State, c: int, r: int)
    requires PairIn(s, c, r) && s.srv.fds[r] == Linked(c)
    ensures var s' := Step(s, Hangup(c));
            && (Enabled(s.srv, Hangup(c)) ==> Structural(s, Hangup(c)))
            && (c in s.srv.opens ==> Enabled(s.srv, Hangup(c)) && c in s'.srv.closing && s'.srv.opens == s.srv.opens)
            && WireOf(s'.srv, c) == WireOf(s.srv, c)
  {
    hide HungUp, WireOf;
    HangupTears(s, c, c, r);
    HangupWire(s, c, r);
  }

  lemma HangupWire(s: State, c: int, r: int)
    requires PairIn(s, c, r) && s.srv.fds[r] == Linked(c)
    ensures WireOf(HungUp(s, c).srv, c) == WireOf(s.srv, c)
  {
    hide WireOf, Dry, OnClose, Close, EraseInfo;
    var s1 := s.(srv := Queue(Unwatch(s.srv, c), c));
    OnCloseChain(s1, c, r);
    DryMove(s1.srv, r);
    WiresOnly(s.srv, s1.srv);
    WiresOnly(Dry(s1.srv, r), Queue(Unwatch(Dry(s1.srv, r), r), r));
  }

  lemma OnlyEmpty(a: bytes, b: bytes)
    ensures a + b == b <==> a == []
  {
    if a + b == b {
      assert |a + b| == |b|;
    }
  }

  /** Pairing. In every run of structural events, whatever bytes are lost, the two tables are mutually inverse, both
      sides are watched, and exactly the paired clients have a state or a buffer. */
  lemma TunnelPairing(withId: bool, events: seq<Event>)
    requires StructuralRun(withId, events)
    ensures var s := Run(withId, events);
            && (forall c :: c in s.tab.c2r ==> s.tab.c2r[c] in s.tab.r2c && s.tab.r2c[s.tab.c2r[c]] == c)
            && (forall r :: r in s.tab.r2c ==> s.tab.r2c[r] in s.tab.c2r && s.tab.c2r[s.tab.r2c[r]] == r)
            && (forall c :: c in s.tab.c2r ==> PairIn(s, c, s.tab.c2r[c]))
            && (forall c :: c in s.tab.state <==> c in s.tab.c2r)
            && (forall c :: c in s.tab.buf ==> c in s.tab.c2r)
  {
    hide Run, WireOf, StructuralRun;
    RunPairs(withId, events);
    var s := Run(withId, events);
    forall c | c in s.tab.c2r ensures PairIn(s, c, s.tab.c2r[c]) && c in s.tab.state {
      Apart(s, c, c);
      PairsAt(s, c);
    }
  }

  /** Teardown. In every such run, whichever side is lost and however, and also when the connection attempt fails or
      is abandoned, nothing of the pair is left and both sides are queued. */
  lemma TunnelTeardown(withId: bool, events: seq<Event>, c: int, r: int)
    requires StructuralRun(withId, events) && c in Run(withId, events).tab.c2r && Run(withId, events).tab.c2r[c] == r
    ensures var s := Run(withId, events);
            && Lost(s, HungUp(s, c), c, r)
            && (Linked(c) == RoleOf(s, r) ==> Lost(s, HungUp(s, r), c, r))
            && (Dialing(c) == RoleOf(s, r) ==>
                  forall ids, answers :: Lost(s, Step(s, Dialed(r, false, ids, answers)), c, r))
            && Lost(s, Close(s, c, false), c, r) && Lost(s, Close(s, r, false), c, r)
  {
    hide Run, Close, HungUp, DialFailed, TornDown, Pairs, StructuralRun;
    RunPairs(withId, events);
    PairTeardown(Run(withId, events), c, r);
  }

  function RoleOf(s: State, fd: int): Role {
    if fd in s.srv.fds then s.srv.fds[fd] else Bare
  }

  lemma PairTeardown(s: State, c: int, r: int)
    requires Pairs(s) && c in s.tab.c2r && s.tab.c2r[c] == r
    ensures Lost(s, HungUp(s, c), c, r)
    ensures Linked(c) == RoleOf(s, r) ==> Lost(s, HungUp(s, r), c, r)
    ensures Dialing(c) == RoleOf(s, r) ==> forall ids, answers :: Lost(s, Step(s, Dialed(r, false, ids, answers)), c, r)
    ensures Lost(s, Close(s, c, false), c, r) && Lost(s, Close(s, r, false), c, r)
  {
    hide Close, HungUp, DialFailed, TornDown, Lost;
    Apart(s, c, c);
    HangupTears(s, c, c, r);
    LostWhenTorn(s, HungUp(s, c), c, r);
    CloseTears(s, c, c, r);
    LostWhenTorn(s, Close(s, c, false), c, r);
    CloseTears(s, r, c, r);
    LostWhenTorn(s, Close(s, r, false), c, r);
    if s.srv.fds[r].Linked? {
      HangupTears(s, r, c, r);
      LostWhenTorn(s, HungUp(s, r), c, r);
    } else {
      DialFailTears(s, c, r);
      LostWhenTorn(s, DialFailed(s.(srv := Unwatch(s.srv, r)), r, c), c, r);
    }
  }

  predicate Lost(s: State, s': State, c: int, r: int) {
    && c !in s'.tab.c2r && r !in s'.tab.r2c && c !in s'.tab.state && c !in s'.tab.buf
    && c !in s'.srv.fds && r !in s'.srv.fds && c in s'.srv.closing && r in s'.srv.closing
    && (forall k :: k != c && k in s.tab.c2r ==> k in s'.tab.c2r && s'.tab.c2r[k] == s.tab.c2r[k])
  }

  lemma LostWhenTorn(s: State, s': State, c: int, r: int)
    requires TornDown(s, s', c, r) && c in s.tab.c2r && s.tab.c2r[c] == r
    ensures Lost(s, s', c, r)
  {
    hide WireOf;
  }

  // ---- Where the code keeps less: what the other events do ----

  /** A connect that fails at once happens before the client is watched, so close(client) does nothing: the
      client is then watched without a partner, what it sends is held for ever, and outlives it. */
  lemma SyncFailureOrphans(s: State, c: int, r: int, answers: seq<Output.Answer>, message: bytes)
    requires Pairs(s) && c != r && c !in s.srv.opens && r !in s.srv.opens && c !in s.srv.fds && r !in s.srv.fds
    ensures var s1 := Accepted(s, c, r, Fails, answers, answers);
            var s2 := OnMessage(s1, c, message, answers);
            && c in s1.srv.fds && s1.srv.fds[c] == Client && c !in s1.tab.c2r && s1.srv.closing == s.srv.closing + [r]
            && Saved(HungUp(s2, c).tab.buf, c) == message
  {
    hide Pairs, DialFailed, Dry, OpenFd, NewClient, WireOf, OnClose;
    Unused(s, c);
    var a := OpenFd(NewClient(s.srv, c), r);
    Opened(s.srv, c, r);
    var t := s.tab.(state := s.tab.state[c := B4Connect]);
    FailedStep(State(s.withId, a, t), r, c);
    SameFds(a, c);
    SameFds(Dry(a, c), r);
    DryQueue(a, c);
    DryQueue(Dry(a, c), r);
    var s1 := Accepted(s, c, r, Fails, answers, answers);
    var s2 := OnMessage(s1, c, message, answers);
    assert s2.tab.buf[c] == [] + message == message;
    NoPartner(s2.(srv := Queue(Unwatch(s2.srv, c), c)), c);
  }

  lemma NoPartner(s: State, c: int)
    requires c !in s.tab.c2r
    ensures OnClose(s, c) == s
  {
    hide Close;
  }

  lemma DryQueue(srv: Server, fd: int)
    ensures Dry(srv, fd).closing == srv.closing
  {
  }

  /** A broken pipe while announcing the client or sending what was held back closes the remote before the wrapper
      watches it: the remote is then queued for closing, watched again and still paired, and bytes of what was held
      back are gone. */
  lemma BrokenFlushStaysPaired(s: State, c: int, r: int, ids: seq<Output.Answer>, answers: seq<Output.Answer>,
      lost: bool)
    requires Pairs(s) && c in s.tab.c2r && s.tab.c2r[c] == r && RoleOf(s, r) == Dialing(c) && Account(s, c, Up, lost)
    requires BreaksOff(Answering(s, r), r, c, ids, answers)
    ensures var s' := Step(s, Dialed(r, true, ids, answers));
            && r in s'.srv.closing && RoleOf(s', r) == Linked(c) && c in s'.tab.c2r && s'.tab.c2r[c] == r
            && Saved(s'.tab.buf, c) == []
            && (Saved(s.tab.buf, c) != [] ==> |Sent(s', c, Up)| < |Target(s', c, Up)|)
  {
    hide RemoteConnected, Pairs, WireOf, Output.Stream, BreaksOff;
    Apart(s, c, c);
    PairsAt(s, c);
    var s0 := Answering(s, r);
    WiresOnly(s.srv, s0.srv);
    BrokenOff(s0, r, c, ids, answers);
    var s1 := RemoteConnected(s0, r, c, ids, answers);
    WiresOnly(s1.srv, Watch(s1.srv, r, Linked(c)));
  }
}
