/** The tunnel's server is the reactor with roles for callbacks: every move of the tunnel machine is what the
    reactor does when its callbacks make the calls that on_close, on_remote_connect and the others make. */
module TunnelOnReactor {
  import opened Bytes
  import opened Bufferables
  import Output
  import R = Reactor
  import opened Tunnels

  /** What a descriptor in a role is watched with. */
  function Watched(role: Role): set<R.EventType> {
    match role
    case Client => {R.OnRead, R.OnClose}
    case Linked(_) => {R.OnRead, R.OnClose}
    case Dialing(_) => {R.OnConnect}
    case Bare => {}
  }

  /** The same descriptors watched, each as its role says; the same queued, open, and owed the same bytes. */
  ghost predicate Shows(a: Server, b: R.State) {
    && a.fds.Keys == b.fds.Keys && (forall fd :: fd in a.fds ==> b.fds[fd].Keys == Watched(a.fds[fd]))
    && a.closing == b.closing && a.opens == b.opens.Keys
    && (forall fd :: Output.WaitingOf(b.writeBuf, fd) == WireOf(a, fd).channel.waiting)
  }

  // ---- The calls the tunnel's callbacks make ----

  const Silent := R.Reply(R.Stop, R.Stop)

  /** When a descriptor is closed: CLOSE of a client or a remote, CONNECT of a remote still dialing. */
  function OnClosing(s: State, fd: int): R.Reply
    decreases |s.srv.fds|, 0
  {
    if fd !in s.srv.fds then Silent
    else
      Fewer(s.srv.fds, fd);
      var off := Unwatch(Dry(s.srv, fd), fd);
      match s.srv.fds[fd]
      case Bare => Silent
      case Client => R.Reply(R.Stop, ClientClosed(s.(srv := Queue(off, fd)), fd))
      case Linked(client) => R.Reply(R.Stop, RemoteClosed(s.(srv := Queue(off, fd)), client))
      case Dialing(client) => R.Reply(Failed(s.(srv := off), fd, client), R.Stop)
  }

  function CloseCall(s: State, fd: int, force: bool): R.Op
    decreases |s.srv.fds|, 1
  {
    R.Close(fd, force, OnClosing(s, fd))
  }

  function ClientClosed(s: State, client: int): R.Script
    decreases |s.srv.fds|, 2
  {
    if client !in s.tab.c2r then R.Stop
    else R.Then(CloseCall(s.(tab := EraseInfo(s.tab, client)), s.tab.c2r[client], false), R.Stop)
  }

  function RemoteClosed(s: State, client: int): R.Script
    decreases |s.srv.fds|, 2
  {
    if client !in s.tab.c2r then R.Stop
    else R.Then(CloseCall(s.(tab := EraseInfo(s.tab, client)), client, false), R.Stop)
  }

  function Failed(s: State, remote: int, client: int): R.Script
    decreases |s.srv.fds|, 2
  {
    var s1 := s.(tab := EraseInfo(s.tab, client));
    R.Then(CloseCall(s1, client, false), R.Then(CloseCall(Close(s1, client, false), remote, true), R.Stop))
  }

  function WriteCall(s: State, fd: int, data: bytes, answers: seq<Output.Answer>): R.Op {
    var (c, _) := Output.Write(WireOf(s.srv, fd).channel, data, answers);
    R.Write(fd, data, answers, OnClosing(s.(srv := SetChannel(s.srv, fd, c)), fd))
  }

  function MessageCalls(s: State, client: int, message: bytes, answers: seq<Output.Answer>, rest: R.Script): R.Script {
    if StateOf(s.tab, client) != Connected then rest
    else
      var remote := RemoteFor(s.tab, client);
      var s1 := s.(tab := s.tab.(buf := s.tab.buf - {client}, c2r := s.tab.c2r[client := remote]));
      R.Then(WriteCall(s1, remote, Saved(s.tab.buf, client) + message, answers), rest)
  }

  /** on_remote_connect told OK, then the wrapper's watch. */
  function ConnectedCalls(s: State, remote: int, client: int, idAnswers: seq<Output.Answer>,
      answers: seq<Output.Answer>): R.Script
  {
    var watch := R.Then(R.Watch(remote, {R.OnRead, R.OnClose}), R.Stop);
    if s.withId && client !in s.srv.c2s then watch
    else
      var s1 := SendId(s, remote, client, idAnswers);
      var s2 := s1.(tab := s1.tab.(state := s1.tab.state[client := Connected]));
      var flush :=
        if client in s2.tab.buf then
          MessageCalls(s2.(tab := s2.tab.(buf := s2.tab.buf - {client})), client, s2.tab.buf[client], answers, watch)
        else watch;
      if s.withId then R.Then(WriteCall(s, remote, BigEndian(4, Id(s.srv, client)), idAnswers), flush) else flush
  }

  // ---- close() ----

  lemma ShowsOn(a: Server, b: R.State, b': R.State)
    requires Shows(a, b)
    requires b'.fds == b.fds && b'.closing == b.closing && b'.opens == b.opens && b'.writeBuf == b.writeBuf
    ensures Shows(a, b')
  {
  }

  lemma ShowsDry(a: Server, b: R.State, fd: int)
    requires Shows(a, b)
    ensures Shows(Dry(a, fd), b.(writeBuf := b.writeBuf - {fd}))
  {
    forall x ensures Output.WaitingOf(b.writeBuf - {fd}, x) == WireOf(Dry(a, fd), x).channel.waiting {
      assert Output.WaitingOf(b.writeBuf, x) == WireOf(a, x).channel.waiting;
    }
  }

  lemma ShowsErase(a: Server, b: R.State, fd: int)
    requires Shows(a, b)
    ensures Shows(Unwatch(a, fd), b.(fds := b.fds - {fd}))
  {
    hide Output.WaitingOf;
    WiresOnly(a, Unwatch(a, fd));
  }

  lemma ShowsQueue(a: Server, b: R.State, fd: int)
    requires Shows(a, b)
    ensures Shows(Queue(a, fd), b.(closing := b.closing + [fd]))
  {
    hide Output.WaitingOf;
    WiresOnly(a, Queue(a, fd));
  }

  lemma RunOne(b: R.State, op: R.Op, rest: R.Script)
    ensures R.Run(b, R.Then(op, rest)) == R.Run(R.Exec(b, op), rest) && R.Run(b, R.Stop) == b
  {
    hide R.Exec;
  }

  /** Closing any descriptor in any state, with everything its callbacks close in turn. */
  lemma {:induction false} CloseRefines(s: State, b: R.State, fd: int, force: bool)
    requires Shows(s.srv, b)
    ensures Shows(Close(s, fd, force).srv, R.Exec(b, CloseCall(s, fd, force)))
    decreases |s.srv.fds|, 1
  {
    hide Shows, OnClosing, Close, R.CloseFd;
    CloseFdRefines(s, b, fd, force);
    assert R.Exec(b, CloseCall(s, fd, force)) == R.CloseFd(b, fd, force, OnClosing(s, fd)).0;
  }

  /** The reactor after close() has dropped, erased and queued a descriptor, its last callback about to run. */
  function Told(b: R.State, fd: int, why: seq<R.Entry>, queued: bool): R.State {
    var b1 := R.Erase(b.(writeBuf := b.writeBuf - {fd}), fd);
    b1.(log := b1.log + why, closing := if queued then b1.closing + [fd] else b1.closing)
  }

  lemma CloseAbsent(b: R.State, fd: int, force: bool, reply: R.Reply)
    requires fd !in b.fds
    ensures R.CloseFd(b, fd, force, reply).0
         == b.(writeBuf := b.writeBuf - {fd}, closing := if force then b.closing + [fd] else b.closing)
  {
    hide R.Run;
  }

  lemma CloseBare(b: R.State, fd: int, force: bool, reply: R.Reply)
    requires fd in b.fds && b.fds[fd].Keys == {}
    ensures exists why :: R.CloseFd(b, fd, force, reply).0 == Told(b, fd, why, true)
  {
    hide R.Run;
    var why := [R.Gone(fd, R.Dropped(b.fds[fd], R.Closed), R.Closed)];
    assert R.OnConnect !in b.fds[fd].Keys && R.OnClose !in b.fds[fd].Keys;
    assert R.CloseFd(b, fd, force, reply).0 == Told(b, fd, why, true);
  }

  lemma CloseWatched(b: R.State, fd: int, force: bool, reply: R.Reply)
    requires fd in b.fds && R.OnClose in b.fds[fd].Keys && R.OnConnect !in b.fds[fd].Keys
    ensures exists why :: R.CloseFd(b, fd, force, reply).0 == R.Run(Told(b, fd, why, true), reply.closed)
  {
    hide R.Run;
    var f := b.fds[fd][R.OnClose];
    var why := [R.Gone(fd, R.Dropped(b.fds[fd], R.Closed), R.Closed)] + [R.Fired(f, R.Plain)];
    assert b.log + why == b.log + [R.Gone(fd, R.Dropped(b.fds[fd], R.Closed), R.Closed)] + [R.Fired(f, R.Plain)];
    assert R.CloseFd(b, fd, force, reply).0 == R.Run(Told(b, fd, why, true), reply.closed);
  }

  lemma CloseDialing(b: R.State, fd: int, force: bool, reply: R.Reply)
    requires fd in b.fds && R.OnClose !in b.fds[fd].Keys && R.OnConnect in b.fds[fd].Keys
    ensures exists why ::
      var b1 := R.Run(Told(b, fd, why, false), reply.gameOver);
      R.CloseFd(b, fd, force, reply).0 == b1.(closing := b1.closing + [fd])
  {
    hide R.Run;
    var f := b.fds[fd][R.OnConnect];
    var why := [R.Gone(fd, R.Dropped(b.fds[fd], R.Closed), R.Closed)] + [R.Fired(f, R.GameOver)];
    assert b.log + why == b.log + [R.Gone(fd, R.Dropped(b.fds[fd], R.Closed), R.Closed)] + [R.Fired(f, R.GameOver)];
    var b1 := R.Run(Told(b, fd, why, false), reply.gameOver);
    assert R.CloseFd(b, fd, force, reply).0 == b1.(closing := b1.closing + [fd]);
  }

  lemma ToldShows(a: Server, b: R.State, fd: int, why: seq<R.Entry>)
    requires Shows(a, b)
    ensures var off := Unwatch(Dry(a, fd), fd);
            Shows(off, Told(b, fd, why, false)) && Shows(Queue(off, fd), Told(b, fd, why, true))
  {
    hide Shows, Dry, Unwatch, Queue;
    var b0 := b.(writeBuf := b.writeBuf - {fd});
    var off, b1 := Unwatch(Dry(a, fd), fd), b0.(fds := b0.fds - {fd});
    ShowsDry(a, b, fd);
    ShowsErase(Dry(a, fd), b0, fd);
    ShowsQueue(off, b1, fd);
    ShowsOn(off, b1, Told(b, fd, why, false));
    ShowsOn(Queue(off, fd), b1.(closing := b1.closing + [fd]), Told(b, fd, why, true));
  }

  lemma {:induction false} CloseFdRefines(s: State, b: R.State, fd: int, force: bool)
    requires Shows(s.srv, b)
    ensures Shows(Close(s, fd, force).srv, R.CloseFd(b, fd, force, OnClosing(s, fd)).0)
    decreases |s.srv.fds|, 0
  {
    hide Shows, R.Run, R.CloseFd, Dry, Unwatch, Queue, OnClose, OnRemoteClose, DialFailed, ClientClosed, RemoteClosed,
        Failed;
    hide Told;
    Fields(s.srv, b, fd);
    var reply := OnClosing(s, fd);
    if fd !in s.srv.fds {
      CloseAbsent(b, fd, force, reply);
      var b0 := b.(writeBuf := b.writeBuf - {fd});
      ShowsDry(s.srv, b, fd);
      ShowsQueue(Dry(s.srv, fd), b0, fd);
    } else {
      Fewer(s.srv.fds, fd);
      SameFds(s.srv, fd);
      UnwatchFds(Dry(s.srv, fd), fd);
      var off := Unwatch(Dry(s.srv, fd), fd);
      SameFds(off, fd);
      match s.srv.fds[fd] {
        case Bare =>
          CloseBare(b, fd, force, reply);
          var why :| R.CloseFd(b, fd, force, reply).0 == Told(b, fd, why, true);
          ToldShows(s.srv, b, fd, why);
        case Client =>
          CloseWatched(b, fd, force, reply);
          var why :| R.CloseFd(b, fd, force, reply).0 == R.Run(Told(b, fd, why, true), reply.closed);
          ToldShows(s.srv, b, fd, why);
          ClientClosedRefines(s.(srv := Queue(off, fd)), Told(b, fd, why, true), fd);
        case Linked(client) =>
          CloseWatched(b, fd, force, reply);
          var why :| R.CloseFd(b, fd, force, reply).0 == R.Run(Told(b, fd, why, true), reply.closed);
          ToldShows(s.srv, b, fd, why);
          RemoteClosedRefines(s.(srv := Queue(off, fd)), Told(b, fd, why, true), client);
        case Dialing(client) =>
          CloseDialing(b, fd, force, reply);
          var why :| var b1 := R.Run(Told(b, fd, why, false), reply.gameOver);
                     R.CloseFd(b, fd, force, reply).0 == b1.(closing := b1.closing + [fd]);
          ToldShows(s.srv, b, fd, why);
          FailedRefines(s.(srv := off), Told(b, fd, why, false), fd, client);
          ShowsQueue(DialFailed(s.(srv := off), fd, client).srv, R.Run(Told(b, fd, why, false), reply.gameOver), fd);
      }
    }
  }

  lemma Fields(a: Server, b: R.State, fd: int)
    requires Shows(a, b)
    ensures (fd in a.fds <==> fd in b.fds) && (fd in a.fds ==> b.fds[fd].Keys == Watched(a.fds[fd]))
  {
  }

  lemma {:induction false} ClientClosedRefines(s: State, b: R.State, client: int)
    requires Shows(s.srv, b)
    ensures Shows(OnClose(s, client).srv, R.Run(b, ClientClosed(s, client)))
    decreases |s.srv.fds|, 2
  {
    hide Shows, Close, R.Exec, CloseCall, EraseInfo;
    if client in s.tab.c2r {
      CloseRefines(s.(tab := EraseInfo(s.tab, client)), b, s.tab.c2r[client], false);
    }
  }

  lemma {:induction false} RemoteClosedRefines(s: State, b: R.State, client: int)
    requires Shows(s.srv, b)
    ensures Shows(OnRemoteClose(s, client).srv, R.Run(b, RemoteClosed(s, client)))
    decreases |s.srv.fds|, 2
  {
    hide Shows, Close, R.Exec, CloseCall, EraseInfo;
    if client in s.tab.c2r {
      CloseRefines(s.(tab := EraseInfo(s.tab, client)), b, client, false);
    }
  }

  lemma {:induction false} FailedRefines(s: State, b: R.State, remote: int, client: int)
    requires Shows(s.srv, b)
    ensures Shows(DialFailed(s, remote, client).srv, R.Run(b, Failed(s, remote, client)))
    decreases |s.srv.fds|, 2
  {
    hide Shows, Close, R.Exec, CloseCall, EraseInfo;
    var s1 := s.(tab := EraseInfo(s.tab, client));
    CloseRefines(s1, b, client, false);
    var b1 := R.Exec(b, CloseCall(s1, client, false));
    CloseRefines(Close(s1, client, false), b1, remote, true);
    RunOne(b, CloseCall(s1, client, false), R.Then(CloseCall(Close(s1, client, false), remote, true), R.Stop));
    RunOne(b1, CloseCall(Close(s1, client, false), remote, true), R.Stop);
  }

  // ---- write() ----

  /** How a write goes does not depend on what went out before. */
  lemma WriteAlike(c: Output.Channel, d: Output.Channel, data: bytes, answers: seq<Output.Answer>)
    requires c.waiting == d.waiting
    ensures var (c', end) := Output.Write(c, data, answers);
            var (d', end') := Output.Write(d, data, answers);
            end' == end && d'.waiting == c'.waiting
                && (end != Output.Blocked && c.waiting.Nothing? ==> c'.waiting.Nothing?)
            && (end == Output.Blocked ==> c'.waiting.Bytes?)
               && (c.waiting.Bytes? ==> end == Output.Done && c'.waiting.Bytes?)
  {
  }

  lemma ShowsChannel(a: Server, b: R.State, fd: int, c: Output.Channel)
    requires Shows(a, b)
    ensures var w := if c.waiting.Bytes? then b.writeBuf[fd := c.waiting.data] else b.writeBuf - {fd};
            Shows(SetChannel(a, fd, c), b.(writeBuf := w))
  {
    var w := if c.waiting.Bytes? then b.writeBuf[fd := c.waiting.data] else b.writeBuf - {fd};
    forall x ensures Output.WaitingOf(w, x) == WireOf(SetChannel(a, fd, c), x).channel.waiting {
      assert Output.WaitingOf(b.writeBuf, x) == WireOf(a, x).channel.waiting;
    }
  }

  lemma ShowsRewatch(a: Server, b: R.State, fd: int)
    requires Shows(a, b)
    ensures Shows(AutoRewatch(a, fd), R.AutoRewatch(b, fd))
  {
    hide Output.WaitingOf;
    WiresOnly(a, AutoRewatch(a, fd));
  }

  lemma ShowsOwed(a: Server, b: R.State, fd: int)
    requires Shows(a, b)
    ensures Output.WaitingOf(b.writeBuf, fd) == WireOf(a, fd).channel.waiting
  {
  }

  /** The end of a write, on either side; `b` has dropped the entry of the descriptor if it is to be emptied. */
  lemma PutRefines(s: State, b: R.State, fd: int, c: Output.Channel, end: Output.End)
    requires Shows(SetChannel(s.srv, fd, c), b)
    ensures var reply := OnClosing(s.(srv := SetChannel(s.srv, fd, c)), fd);
            Shows(Put(s, fd, c, end).srv,
                  match end
                  case Blocked => R.AutoRewatch(b, fd)
                  case Broken => R.CloseFd(b, fd, false, reply).0
                  case _ => b)
  {
    hide Shows, SetChannel, Close, R.CloseFd, OnClosing, AutoRewatch, R.AutoRewatch;
    var s1 := s.(srv := SetChannel(s.srv, fd, c));
    ShowsRewatch(s1.srv, b, fd);
    CloseFdRefines(s1, b, fd, false);
  }

  lemma WriteRefines(s: State, b: R.State, fd: int, data: bytes, answers: seq<Output.Answer>)
    requires Shows(s.srv, b)
    ensures Shows(Write(s, fd, data, answers).srv, R.Exec(b, WriteCall(s, fd, data, answers)))
  {
    hide Shows, SetChannel, Put, R.CloseFd, OnClosing, R.AutoRewatch, Output.Write;
    var d := WireOf(s.srv, fd).channel;
    var (c, end) := Output.Write(d, data, answers);
    ShowsOwed(s.srv, b, fd);
    WriteAlike(d, Output.Channel([], Output.WaitingOf(b.writeBuf, fd)), data, answers);
    ShowsChannel(s.srv, b, fd, c);
    assert fd !in b.writeBuf ==> b.writeBuf - {fd} == b.writeBuf;
    var w := if c.waiting.Bytes? then b.writeBuf[fd := c.waiting.data] else b.writeBuf - {fd};
    PutRefines(s, b.(writeBuf := w), fd, c, end);
  }

  // ---- The stages of an event, and the callbacks ----

  /** An event is being handled at a descriptor. */
  function At(b: R.State, fd: int): R.State { b.(cur := fd, curCb := R.Get(b.fds, fd)) }

  /** An event that reports nothing, to be filled in. */
  function Quiet(fd: int): R.Event {
    R.Event(fd, 0, false, false, false, false, false, false, [], Silent, R.Stop, R.Stop, R.Stop, R.Stop, Silent)
  }

  lemma ShowsAt(a: Server, b: R.State, fd: int)
    requires Shows(a, b)
    ensures Shows(a, At(b, fd))
  {
    hide Shows;
    ShowsOn(a, b, At(b, fd));
  }

  lemma ReadRefines(a: Server, b: R.State, fd: int, script: R.Script)
    requires Shows(a, b) && fd in a.fds && R.OnRead in Watched(a.fds[fd])
    ensures var e := Quiet(fd).(input := true, read := script);
            exists b' :: Shows(a, b') && R.ReadStage(At(b, fd), e) == R.Run(b', script)
  {
    hide Shows, R.Run;
    Fields(a, b, fd);
    assert R.OnRead in b.fds[fd].Keys;
    var b' := R.Fire(At(b, fd), b.fds[fd][R.OnRead], R.Plain);
    ShowsOn(a, b, b');
    assert R.ReadStage(At(b, fd), Quiet(fd).(input := true, read := script)) == R.Run(b', script);
  }

  lemma ShowsReceived(a: Server, b: R.State, fd: int, message: bytes)
    requires Shows(a, b)
    ensures Shows(Received(a, fd, message), b)
  {
  }

  lemma MessageRefines(s: State, b: R.State, c: int, message: bytes, answers: seq<Output.Answer>, rest: R.Script)
    returns (b': R.State)
    requires Shows(s.srv, b)
    ensures Shows(OnMessage(s, c, message, answers).srv, b')
    ensures R.Run(b, MessageCalls(s, c, message, answers, rest)) == R.Run(b', rest)
  {
    hide Shows, Write, R.Exec, WriteCall, R.Run;
    b' := b;
    if StateOf(s.tab, c) == Connected {
      var remote := RemoteFor(s.tab, c);
      var s1 := s.(tab := s.tab.(buf := s.tab.buf - {c}, c2r := s.tab.c2r[c := remote]));
      var op := WriteCall(s1, remote, Saved(s.tab.buf, c) + message, answers);
      WriteRefines(s1, b, remote, Saved(s.tab.buf, c) + message, answers);
      RunOne(b, op, rest);
      b' := R.Exec(b, op);
    }
  }

  lemma ShowsWatch(a: Server, b: R.State, fd: int, role: Role, reWatch: bool)
    requires Shows(a, b)
    ensures Shows(Watch(a, fd, role), R.WatchAll(b, fd, Watched(role), reWatch))
  {
    hide Output.WaitingOf;
    WiresOnly(a, Watch(a, fd, role));
    assert R.Register(fd, Watched(role), b.next).Keys == Watched(role);
  }

  lemma SendRefines(s: State, b: R.State, r: int, c: int, answers: seq<Output.Answer>,
      rest: R.Script) returns (b': R.State)
    requires Shows(s.srv, b)
    ensures Shows(SendId(s, r, c, answers).srv, b')
    ensures R.Run(b, if s.withId then R.Then(WriteCall(s, r, BigEndian(4, Id(s.srv, c)), answers), rest) else rest)
         == R.Run(b', rest)
  {
    hide Shows, Write, R.Exec, WriteCall, R.Run;
    b' := b;
    if s.withId {
      var op := WriteCall(s, r, BigEndian(4, Id(s.srv, c)), answers);
      WriteRefines(s, b, r, BigEndian(4, Id(s.srv, c)), answers);
      RunOne(b, op, rest);
      b' := R.Exec(b, op);
    }
  }

  lemma WatchRefines(a: Server, b: R.State, fd: int, role: Role)
    requires Shows(a, b)
    ensures Shows(Watch(a, fd, role), R.Run(b, R.Then(R.Watch(fd, Watched(role)), R.Stop)))
  {
    hide Shows, R.Run, R.WatchAll;
    ShowsWatch(a, b, fd, role, false);
    RunOne(b, R.Watch(fd, Watched(role)), R.Stop);
    RunOne(R.Exec(b, R.Watch(fd, Watched(role))), R.Watch(fd, Watched(role)), R.Stop);
  }

  lemma ConnectedRefines(s: State, b: R.State, r: int, c: int, idAnswers: seq<Output.Answer>,
      answers: seq<Output.Answer>)
    requires Shows(s.srv, b)
    ensures Shows(Watch(RemoteConnected(s, r, c, idAnswers, answers).srv, r, Linked(c)),
                  R.Run(b, ConnectedCalls(s, r, c, idAnswers, answers)))
  {
    hide Shows, Write, R.Run, WriteCall, MessageCalls, OnMessage, SendId, Watch;
    var watch := R.Then(R.Watch(r, {R.OnRead, R.OnClose}), R.Stop);
    var last := b;
    if !(s.withId && c !in s.srv.c2s) {
      var s1 := SendId(s, r, c, idAnswers);
      var s2 := s1.(tab := s1.tab.(state := s1.tab.state[c := Connected]));
      var flush :=
        if c in s2.tab.buf then MessageCalls(s2.(tab := s2.tab.(buf := s2.tab.buf - {c})), c, s2.tab.buf[c], answers,
            watch)
        else watch;
      last := SendRefines(s, b, r, c, idAnswers, flush);
      if c in s2.tab.buf {
        last := MessageRefines(s2.(tab := s2.tab.(buf := s2.tab.buf - {c})), last, c, s2.tab.buf[c], answers, watch);
      }
    }
    WatchRefines(RemoteConnected(s, r, c, idAnswers, answers).srv, last, r, Linked(c));
  }

  // ---- Whole events and whole runs ----

  function FinishedReply(s: State, fd: int, answers: seq<Output.Answer>): R.Reply {
    var (c, _) := Output.Finish(WireOf(s.srv, fd).channel, answers);
    OnClosing(s.(srv := SetChannel(s.srv, fd, c)), fd)
  }

  function HangupCalls(s: State, fd: int): R.Script
    requires fd in s.srv.fds
  {
    var s1 := s.(srv := Queue(Unwatch(s.srv, fd), fd));
    match s.srv.fds[fd]
    case Client => ClientClosed(s1, fd)
    case Linked(client) => RemoteClosed(s1, client)
    case _ => R.Stop
  }

  function HowOf(how: How): R.How {
    match how
    case Fails => R.Fails
    case AtOnce => R.AtOnce
    case Later => R.Later
  }

  /** What the connect of a newly accepted client answers at once, if it does. */
  function ConnectAnswered(s: State, c: int, r: int, how: How, idAnswers: seq<Output.Answer>,
      answers: seq<Output.Answer>): R.Script
  {
    var s1 := Opening(s, c, r);
    match how
    case Fails => Failed(s1.(srv := Unwatch(s1.srv, r)), r, c)
    case AtOnce => ConnectedCalls(s1, r, c, idAnswers, answers)
    case Later => R.Stop
  }

  /** What the reactor does for an event of the tunnel: accept with the connect and the watch that follow it; the READ,
      WRITE or hang-up stage; the CONNECT branch; or the end of the batch. */
  function React(s: State, b: R.State, e: Event): R.State
    requires Shows(s.srv, b) && Enabled(s.srv, e)
  {
    match e
    case Accept(c, r, how, idAnswers, answers) =>
      var connect := R.Connect(r, {R.OnConnect}, HowOf(how), ConnectAnswered(s, c, r, how, idAnswers, answers));
      R.Exec(R.Exec(R.OpenFd(b, c), connect), R.Watch(c, {R.OnRead, R.OnClose}))
    case Data(c, message, answers) =>
      var calls := MessageCalls(s.(srv := Received(s.srv, c, message)), c, message, answers, R.Stop);
      R.ReadStage(At(b, c), Quiet(c).(input := true, read := calls))
    case RemoteData(r, message, answers) =>
      var call := WriteCall(s.(srv := Received(s.srv, r, message)), s.srv.fds[r].client, message, answers);
      R.ReadStage(At(b, r), Quiet(r).(input := true, read := R.Then(call, R.Stop)))
    case Dialed(r, ok, idAnswers, answers) =>
      Fields(s.srv, b, r);
      var c := s.srv.fds[r].client;
      if ok then
        var calls := ConnectedCalls(Answering(s, r), r, c, idAnswers, answers);
        assert R.OnConnect in b.fds[r].Keys;
        R.Run(R.Fire(R.TakeConnect(At(b, r)), b.fds[r][R.OnConnect], R.Connected), calls)
      else R.Dispatch(b, Quiet(r).(error := true, connected := Failed(s.(srv := Unwatch(s.srv, r)), r, c)))
    case HasRoom(fd, answers) =>
      R.WriteStage(At(b, fd), Quiet(fd).(output := true, answers := answers, flush := FinishedReply(s, fd, answers)))
    case Hangup(fd) => R.HangupStage(At(b, fd), Quiet(fd).(hung := R.Reply(R.Stop, HangupCalls(s, fd))))
    case BatchEnd => R.Flush(b)
  }

  lemma DataRefines(s: State, b: R.State, c: int, message: bytes, answers: seq<Output.Answer>)
    requires Shows(s.srv, b) && c in s.srv.fds && s.srv.fds[c].Client?
    ensures Shows(Step(s, Data(c, message, answers)).srv, React(s, b, Data(c, message, answers)))
  {
    hide Shows, OnMessage, R.Run, MessageCalls, R.ReadStage, At, Received;
    var s0 := s.(srv := Received(s.srv, c, message));
    var calls := MessageCalls(s0, c, message, answers, R.Stop);
    ReadRefines(s.srv, b, c, calls);
    var b1 :| Shows(s.srv, b1) && R.ReadStage(At(b, c), Quiet(c).(input := true, read := calls)) == R.Run(b1, calls);
    ShowsReceived(s.srv, b1, c, message);
    var b2 := MessageRefines(s0, b1, c, message, answers, R.Stop);
    RunOne(b2, R.Rewatch(c), R.Stop);
  }

  lemma RemoteDataRefines(s: State, b: R.State, r: int, message: bytes, answers: seq<Output.Answer>)
    requires Shows(s.srv, b) && r in s.srv.fds && s.srv.fds[r].Linked?
    ensures Shows(Step(s, RemoteData(r, message, answers)).srv, React(s, b, RemoteData(r, message, answers)))
  {
    hide Shows, Write, R.Run, WriteCall, R.ReadStage, At, Received, R.Exec;
    var s0, c := s.(srv := Received(s.srv, r, message)), s.srv.fds[r].client;
    var call := WriteCall(s0, c, message, answers);
    ReadRefines(s.srv, b, r, R.Then(call, R.Stop));
    var b1 :| Shows(s.srv, b1)
      && R.ReadStage(At(b, r), Quiet(r).(input := true, read := R.Then(call, R.Stop)))
         == R.Run(b1, R.Then(call, R.Stop));
    ShowsReceived(s.srv, b1, r, message);
    WriteRefines(s0, b1, c, message, answers);
    RunOne(b1, call, R.Stop);
    RunOne(R.Exec(b1, call), call, R.Stop);
  }

  /** The write stage of a descriptor with bytes owed and no WRITE callback. */
  lemma WriteStageOwed(b: R.State, fd: int, answers: seq<Output.Answer>, reply: R.Reply)
    requires b.cur == fd && fd in b.writeBuf && R.OnWrite !in b.curCb
    ensures var e := Quiet(fd).(output := true, answers := answers, flush := reply);
            var (d, end) := Output.Write(Output.Channel([], Output.Nothing), b.writeBuf[fd], answers);
            R.WriteStage(b, e) ==
            match end
            case Done => R.AutoRewatch(b.(writeBuf := b.writeBuf - {fd}), fd)
            case Blocked => R.AutoRewatch(b.(writeBuf := b.writeBuf[fd := Output.Owed(d.waiting)]), fd)
            case Broken => R.CloseFd(b.(writeBuf := b.writeBuf - {fd}), fd, false, reply).0
            case Failed => b.(writeBuf := b.writeBuf - {fd})
  {
    hide R.CloseFd, R.Run;
    var data := b.writeBuf[fd];
    var k := Output.Loop(answers, 0, |data|);
    assert [] + data[..k.taken] == data[..k.taken];
    var removed := b.writeBuf - {fd};
    assert removed[fd := Output.Owed(Output.Bytes(data[k.taken..]))]
        == b.writeBuf[fd := Output.Owed(Output.Bytes(data[k.taken..]))];
    RewatchTwice(b.(writeBuf := removed[fd := data[k.taken..]]), fd);
  }

  lemma RewatchTwice(b: R.State, fd: int)
    ensures R.AutoRewatch(R.AutoRewatch(b, fd), fd) == R.AutoRewatch(b, fd)
  {
    assert b.fds[fd := R.Get(b.fds, fd)][fd := R.Get(b.fds, fd)] == b.fds[fd := R.Get(b.fds, fd)];
  }

  lemma RoomRefines(s: State, b: R.State, fd: int, answers: seq<Output.Answer>)
    requires Shows(s.srv, b)
    ensures Shows(Writable(s, fd, answers).srv,
                  R.WriteStage(At(b, fd),
                      Quiet(fd).(output := true, answers := answers, flush := FinishedReply(s, fd, answers))))
  {
    hide Shows, SetChannel, Put, R.CloseFd, OnClosing, Output.Write, R.Run, AutoRewatch, R.AutoRewatch;
    var b0 := At(b, fd);
    ShowsAt(s.srv, b, fd);
    ShowsOwed(s.srv, b, fd);
    NoWriteCallback(s.srv, b, fd);
    var w := WireOf(s.srv, fd).channel;
    if w.waiting.Nothing? {
      ShowsRewatch(s.srv, b0, fd);
    } else {
      var reply := FinishedReply(s, fd, answers);
      WriteStageOwed(b0, fd, answers, reply);
      RoomOwed(s, b0, fd, answers);
    }
  }

  lemma RoomOwed(s: State, b: R.State, fd: int, answers: seq<Output.Answer>)
    requires Shows(s.srv, b) && fd in b.writeBuf && WireOf(s.srv, fd).channel.waiting == Output.Bytes(b.writeBuf[fd])
    ensures var (d, end) := Output.Write(Output.Channel([], Output.Nothing), b.writeBuf[fd], answers);
            Shows(Writable(s, fd, answers).srv,
                  match end
                  case Done => R.AutoRewatch(b.(writeBuf := b.writeBuf - {fd}), fd)
                  case Blocked => R.AutoRewatch(b.(writeBuf := b.writeBuf[fd := Output.Owed(d.waiting)]), fd)
                  case Broken => R.CloseFd(b.(writeBuf := b.writeBuf - {fd}), fd, false,
                      FinishedReply(s, fd, answers)).0
                  case Failed => b.(writeBuf := b.writeBuf - {fd}))
  {
    hide Shows, SetChannel, R.CloseFd, OnClosing, Output.Write, Close, AutoRewatch, R.AutoRewatch;
    var w := WireOf(s.srv, fd).channel;
    var w0 := w.(waiting := Output.Nothing);
    var (c, end) := Output.Write(w0, w.waiting.data, answers);
    WriteAlike(w0, Output.Channel([], Output.Nothing), w.waiting.data, answers);
    ShowsChannel(s.srv, b, fd, c);
    var b1 := b.(writeBuf := if c.waiting.Bytes? then b.writeBuf[fd := c.waiting.data] else b.writeBuf - {fd});
    PutRefines(s, b1, fd, c, end);
    ShowsRewatch(SetChannel(s.srv, fd, c), b1, fd);
  }

  lemma NoWriteCallback(a: Server, b: R.State, fd: int)
    requires Shows(a, b)
    ensures R.OnWrite !in At(b, fd).curCb
  {
    if fd in a.fds {
      assert b.fds[fd].Keys == Watched(a.fds[fd]);
      assert R.OnWrite !in b.fds[fd].Keys;
    }
  }

  lemma HangupRefines(s: State, b: R.State, fd: int)
    requires Shows(s.srv, b) && fd in s.srv.fds && !s.srv.fds[fd].Dialing?
    ensures Shows(HungUp(s, fd).srv,
                  R.HangupStage(At(b, fd), Quiet(fd).(hung := R.Reply(R.Stop, HangupCalls(s, fd)))))
  {
    hide Shows, R.Run, OnClose, OnRemoteClose, ClientClosed, RemoteClosed, Unwatch, Queue;
    var calls := HangupCalls(s, fd);
    Fields(s.srv, b, fd);
    assert R.OnConnect !in b.fds[fd].Keys;
    var off := Unwatch(s.srv, fd);
    var b1 := R.Erase(At(b, fd), fd).(log := b.log + [R.Gone(fd, R.Dropped(b.fds[fd], R.Closed), R.Closed)]);
    var b2 := b1.(closing := b1.closing + [fd]);
    ShowsErase(s.srv, b, fd);
    ShowsQueue(off, b.(fds := b.fds - {fd}), fd);
    ShowsOn(Queue(off, fd), b.(fds := b.fds - {fd}, closing := b.closing + [fd]), b2);
    if s.srv.fds[fd] != Bare {
      assert R.OnClose in b.fds[fd].Keys;
      var b3 := R.Fire(b2, b.fds[fd][R.OnClose], R.Plain);
      ShowsOn(Queue(off, fd), b2, b3);
      if s.srv.fds[fd].Client? {
        ClientClosedRefines(s.(srv := Queue(off, fd)), b3, fd);
      } else {
        RemoteClosedRefines(s.(srv := Queue(off, fd)), b3, s.srv.fds[fd].client);
      }
    } else {
      assert R.OnClose !in b.fds[fd].Keys;
    }
  }

  lemma DialedRefines(s: State, b: R.State, r: int, idAnswers: seq<Output.Answer>, answers: seq<Output.Answer>)
    requires Shows(s.srv, b) && r in s.srv.fds && s.srv.fds[r].Dialing?
    ensures Shows(Step(s, Dialed(r, true, idAnswers, answers)).srv, React(s, b, Dialed(r, true, idAnswers, answers)))
  {
    hide Shows, R.Run, ConnectedCalls, RemoteConnected;
    var c := s.srv.fds[r].client;
    Fields(s.srv, b, r);
    assert R.OnConnect in b.fds[r].Keys;
    TakenShows(s.srv, b, r);
    var b1 := R.Fire(R.TakeConnect(At(b, r)), b.fds[r][R.OnConnect], R.Connected);
    ShowsOn(Watch(s.srv, r, Bare), R.TakeConnect(At(b, r)), b1);
    ConnectedRefines(Answering(s, r), b1, r, c, idAnswers, answers);
  }

  lemma TakenShows(a: Server, b: R.State, r: int)
    requires Shows(a, b) && r in a.fds && a.fds[r].Dialing?
    ensures r in b.fds && Shows(Watch(a, r, Bare), R.TakeConnect(At(b, r)))
  {
    hide Output.WaitingOf;
    WiresOnly(a, Watch(a, r, Bare));
    assert b.fds[r].Keys == {R.OnConnect};
    assert (b.fds[r] - {R.OnConnect}).Keys == {};
  }

  lemma RefusedRefines(s: State, b: R.State, r: int, idAnswers: seq<Output.Answer>, answers: seq<Output.Answer>)
    requires Shows(s.srv, b) && r in s.srv.fds && s.srv.fds[r].Dialing?
    ensures Shows(Step(s, Dialed(r, false, idAnswers, answers)).srv, React(s, b, Dialed(r, false, idAnswers, answers)))
  {
    hide Shows, R.Run, Failed, DialFailed, Unwatch;
    var c := s.srv.fds[r].client;
    var calls := Failed(s.(srv := Unwatch(s.srv, r)), r, c);
    Fields(s.srv, b, r);
    assert R.OnConnect in b.fds[r].Keys;
    var f, b1 := b.fds[r][R.OnConnect], R.TakeConnect(At(b, r));
    assert b1.fds[r] == b.fds[r] - {R.OnConnect};
    var b2 := R.UnwatchFd(b1, r, R.ConnectFailed, calls).0;
    ShowsErase(s.srv, b, r);
    assert b.fds[r := b.fds[r] - {R.OnConnect}] - {r} == b.fds - {r};
    ShowsOn(Unwatch(s.srv, r), b.(fds := b.fds - {r}), R.Fire(b2, f, R.Refused));
    FailedRefines(s.(srv := Unwatch(s.srv, r)), R.Fire(b2, f, R.Refused), r, c);
  }

  lemma ShowsOpen(a: Server, b: R.State, fd: int)
    requires Shows(a, b)
    ensures Shows(OpenFd(a, fd), R.OpenFd(b, fd))
  {
    forall x ensures Output.WaitingOf(b.writeBuf, x) == WireOf(OpenFd(a, fd), x).channel.waiting {
      assert Output.WaitingOf(b.writeBuf, x) == WireOf(a, x).channel.waiting;
    }
  }

  lemma ShowsNumbers(a: Server, a': Server, b: R.State)
    requires Shows(a, b) && a' == a.(sessions := a'.sessions, c2s := a'.c2s)
    ensures Shows(a', b)
  {
    hide Output.WaitingOf;
    WiresOnly(a, a');
  }

  lemma ConnectRefines(s: State, b: R.State, c: int, r: int, how: How, idAnswers: seq<Output.Answer>,
      answers: seq<Output.Answer>)
    requires Shows(s.srv, b) && Enabled(s.srv, Accept(c, r, how, idAnswers, answers))
    ensures var call := R.Connect(r, {R.OnConnect}, HowOf(how), ConnectAnswered(s, c, r, how, idAnswers, answers));
            exists a :: Shows(a, R.Exec(R.OpenFd(b, c), call))
                && Accepted(s, c, r, how, idAnswers, answers).srv == Watch(a, c, Client)
  {
    hide Shows, R.Run, Failed, DialFailed, ConnectedCalls, RemoteConnected, OpenFd, NewClient, Unwatch, R.WatchAll;
    var answered := ConnectAnswered(s, c, r, how, idAnswers, answers);
    var call := R.Connect(r, {R.OnConnect}, HowOf(how), answered);
    var b1, b2 := R.OpenFd(b, c), R.OpenFd(R.OpenFd(b, c), r);
    var s1 := Opening(s, c, r);
    OpeningShows(s, b, c, r);
    NotOpened(s.srv, b, c, r);
    match how {
      case Fails =>
        var b3 := R.UnwatchFd(b2, r, R.Quietly, answered).0;
        QuietShows(s1.srv, b2, r, answered);
        FailedRefines(s1.(srv := Unwatch(s1.srv, r)), b3, r, c);
        assert R.Exec(b1, call) == R.Run(b3, answered);
        assert Shows(DialFailed(s1.(srv := Unwatch(s1.srv, r)), r, c).srv, R.Exec(b1, call));
      case AtOnce =>
        ConnectedRefines(s1, b2, r, c, idAnswers, answers);
        assert R.Exec(b1, call) == R.Run(b2, answered);
        assert Shows(Watch(RemoteConnected(s1, r, c, idAnswers, answers).srv, r, Linked(c)), R.Exec(b1, call));
      case Later =>
        ShowsWatch(s1.srv, b2, r, Dialing(c), true);
        assert R.Exec(b1, call) == R.WatchAll(b2, r, {R.OnConnect}, true);
        assert Shows(Watch(s1.srv, r, Dialing(c)), R.Exec(b1, call));
    }
  }

  lemma OpeningShows(s: State, b: R.State, c: int, r: int)
    requires Shows(s.srv, b)
    ensures Shows(Opening(s, c, r).srv, R.OpenFd(R.OpenFd(b, c), r))
  {
    hide Shows, OpenFd;
    ShowsOpen(s.srv, b, c);
    ShowsNumbers(OpenFd(s.srv, c), NewClient(s.srv, c), R.OpenFd(b, c));
    ShowsOpen(NewClient(s.srv, c), R.OpenFd(b, c), r);
  }

  lemma NotOpened(a: Server, b: R.State, c: int, r: int)
    requires Shows(a, b) && c !in a.opens && r !in a.opens && c != r
    ensures c !in b.opens && r !in R.OpenFd(b, c).opens
  {
  }

  lemma QuietShows(a: Server, b: R.State, fd: int, calls: R.Script)
    requires Shows(a, b)
    ensures Shows(Unwatch(a, fd), R.UnwatchFd(b, fd, R.Quietly, calls).0)
  {
    hide Shows, R.Run;
    Fields(a, b, fd);
    ShowsErase(a, b, fd);
    if fd in b.fds {
      ShowsOn(Unwatch(a, fd), b.(fds := b.fds - {fd}), R.UnwatchFd(b, fd, R.Quietly, calls).0);
    }
  }

  lemma AcceptRefines(s: State, b: R.State, c: int, r: int, how: How, idAnswers: seq<Output.Answer>,
      answers: seq<Output.Answer>)
    requires Shows(s.srv, b) && Enabled(s.srv, Accept(c, r, how, idAnswers, answers))
    ensures Shows(Accepted(s, c, r, how, idAnswers, answers).srv, React(s, b, Accept(c, r, how, idAnswers, answers)))
  {
    hide Shows, Accepted, R.WatchAll, ConnectAnswered, Watch;
    var call := R.Connect(r, {R.OnConnect}, HowOf(how), ConnectAnswered(s, c, r, how, idAnswers, answers));
    ConnectRefines(s, b, c, r, how, idAnswers, answers);
    var b1 := R.Exec(R.OpenFd(b, c), call);
    var a :| Shows(a, b1) && Accepted(s, c, r, how, idAnswers, answers).srv == Watch(a, c, Client);
    ShowsWatch(a, b1, c, Client, false);
    WatchCall(b1, c);
  }

  lemma WatchCall(b: R.State, fd: int)
    ensures R.Exec(b, R.Watch(fd, {R.OnRead, R.OnClose})) == R.WatchAll(b, fd, {R.OnRead, R.OnClose}, false)
  {
    hide R.WatchAll;
  }

  lemma FlushRefines(a: Server, b: R.State)
    requires Shows(a, b)
    ensures Shows(Flushed(a), R.Flush(b))
  {
    hide Output.WaitingOf;
    WiresOnly(a, Flushed(a));
  }

  /** Each event of the tunnel machine is a move of the reactor, with the callbacks calling what the tunnel calls. */
  lemma StepRefines(s: State, b: R.State, e: Event)
    requires Shows(s.srv, b) && Enabled(s.srv, e)
    ensures Shows(Step(s, e).srv, React(s, b, e))
  {
    hide Shows, Accepted, HungUp, Writable, Flushed, OnMessage, Write, DialDone;
    match e {
      case Accept(c, r, how, idAnswers, answers) => AcceptRefines(s, b, c, r, how, idAnswers, answers);
      case Data(c, message, answers) => DataRefines(s, b, c, message, answers);
      case RemoteData(r, message, answers) => RemoteDataRefines(s, b, r, message, answers);
      case Dialed(r, ok, idAnswers, answers) =>
        if ok {
          DialedRefines(s, b, r, idAnswers, answers);
        } else {
          RefusedRefines(s, b, r, idAnswers, answers);
        }
      case HasRoom(fd, answers) => RoomRefines(s, b, fd, answers);
      case Hangup(fd) => HangupRefines(s, b, fd);
      case BatchEnd => FlushRefines(s.srv, b);
    }
  }

  /** The reactor's side of a run of the tunnel. */
  ghost function Reacts(withId: bool, events: seq<Event>): (b: R.State)
    ensures Shows(Run(withId, events).srv, b)
    decreases |events|
  {
    if events == [] then StartShows(withId); R.Start
    else
      var front, last := events[..|events| - 1], events[|events| - 1];
      var s, b0 := Run(withId, front), Reacts(withId, front);
      if Enabled(s.srv, last) then StepRefines(s, b0, last); React(s, b0, last)
      else Refused(s, last); b0
  }

  lemma StartShows(withId: bool)
    ensures Shows(Start(withId).srv, R.Start)
  {
  }
}
