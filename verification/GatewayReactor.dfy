/** The gateway's close() is the reactor's, with roles for callbacks. */
module GatewayOnReactor {
  import R = Reactor
  import opened Gateways
  import opened TunnelOnReactor

  function WatchedAs(role: Role): set<R.EventType> {
    match role
    case Client => {R.OnRead, R.OnClose}
    case Linked(_) => {R.OnRead, R.OnClose}
    case Dialing(_) => {R.OnConnect}
  }

  /** The same descriptors watched, each as its role says; the same queued and open. */
  ghost predicate Mirrors(a: State, b: R.State) {
    && a.fds.Keys == b.fds.Keys && (forall fd :: fd in a.fds ==> b.fds[fd].Keys == WatchedAs(a.fds[fd]))
    && a.closing == b.closing && a.opens == b.opens.Keys
  }

  /** The calls that on_close, on_remote_close and a failed on_remote_connect make. */
  function Closing(s: State, fd: int): R.Reply
    decreases |s.fds|, 0
  {
    if fd !in s.fds then Silent
    else
      Fewer(s.fds, fd);
      match s.fds[fd]
      case Client => R.Reply(R.Stop, ClientCalls(Let(s, fd), fd))
      case Linked(client) => R.Reply(R.Stop, RemoteCalls(Let(s, fd), fd, client))
      case Dialing(client) =>
        var s1 := s.(fds := s.fds - {fd});
        R.Reply(R.Then(Called(s1, client), R.Then(R.Close(fd, true, Closing(Close(s1, client), fd)), R.Stop)), R.Stop)
  }

  function Called(s: State, fd: int): R.Op
    decreases |s.fds|, 1
  {
    R.Close(fd, false, Closing(s, fd))
  }

  function ClientCalls(s: State, client: int): R.Script
    decreases |s.fds|, 2
  {
    if client in s.tab.c2r then R.Then(Called(Cleared(s, client), s.tab.c2r[client]), R.Stop) else R.Stop
  }

  function RemoteCalls(s: State, remote: int, client: int): R.Script
    decreases |s.fds|, 2
  {
    if remote in s.tab.r2c then R.Then(Called(s, client), R.Stop) else R.Stop
  }

  lemma MirrorsOn(a: State, a': State, b: R.State, b': R.State)
    requires Mirrors(a, b) && a'.fds == a.fds && a'.closing == a.closing && a'.opens == a.opens
    requires b'.fds == b.fds && b'.closing == b.closing && b'.opens == b.opens
    ensures Mirrors(a', b')
  {
  }

  lemma MirrorsTold(a: State, b: R.State, fd: int, why: seq<R.Entry>)
    requires Mirrors(a, b)
    ensures Mirrors(Let(a, fd), Told(b, fd, why, true)) && Mirrors(a.(fds := a.fds - {fd}), Told(b, fd, why, false))
  {
  }

  lemma MirrorsQueue(a: State, b: R.State, fd: int)
    requires Mirrors(a, b)
    ensures Mirrors(Queue(a, fd), b.(closing := b.closing + [fd]))
  {
  }

  lemma Alike(a: State, b: R.State, fd: int)
    requires Mirrors(a, b)
    ensures (fd in a.fds <==> fd in b.fds) && (fd in a.fds ==> b.fds[fd].Keys == WatchedAs(a.fds[fd]))
  {
  }

  /** Closing anything in any state, a stale record included, with everything the gateway's callbacks close in turn. */
  lemma {:induction false} CloseRefines(s: State, b: R.State, fd: int)
    requires Mirrors(s, b)
    ensures Mirrors(Close(s, fd), R.CloseFd(b, fd, false, Closing(s, fd)).0)
    decreases |s.fds|, 0
  {
    hide Mirrors, R.Run, R.CloseFd, OnClose, OnRemoteClose, ClientCalls, RemoteCalls, Told, Let, Closing, Close;
    Alike(s, b, fd);
    var reply := Closing(s, fd);
    if fd !in s.fds {
      CloseAbsent(b, fd, false, reply);
      LoneClose(s, fd);
      MirrorsOn(s, s, b, R.CloseFd(b, fd, false, reply).0);
    } else {
      Fewer(s.fds, fd);
      ClosingOf(s, fd);
      match s.fds[fd] {
        case Client =>
          CloseWatched(b, fd, false, reply);
          var why :| R.CloseFd(b, fd, false, reply).0 == R.Run(Told(b, fd, why, true), reply.closed);
          MirrorsTold(s, b, fd, why);
          ClientStep(s, fd);
          ClientCallsRefine(Let(s, fd), Told(b, fd, why, true), fd);
        case Linked(client) =>
          CloseWatched(b, fd, false, reply);
          var why :| R.CloseFd(b, fd, false, reply).0 == R.Run(Told(b, fd, why, true), reply.closed);
          MirrorsTold(s, b, fd, why);
          LinkedStep(s, fd, client);
          RemoteCallsRefine(Let(s, fd), Told(b, fd, why, true), fd, client);
        case Dialing(client) =>
          CloseDialing(b, fd, false, reply);
          var why :| var b1 := R.Run(Told(b, fd, why, false), reply.gameOver);
                     R.CloseFd(b, fd, false, reply).0 == b1.(closing := b1.closing + [fd]);
          MirrorsTold(s, b, fd, why);
          DialingStep(s, fd, client);
          FailedCallsRefine(s.(fds := s.fds - {fd}), Told(b, fd, why, false), fd, client);
          MirrorsQueue(DialFailed(s.(fds := s.fds - {fd}), fd, client), R.Run(Told(b, fd, why, false), reply.gameOver),
              fd);
      }
    }
  }

  lemma ClosingOf(s: State, fd: int)
    requires fd in s.fds
    ensures Closing(s, fd) ==
            match s.fds[fd]
            case Client => R.Reply(R.Stop, ClientCalls(Let(s, fd), fd))
            case Linked(client) => R.Reply(R.Stop, RemoteCalls(Let(s, fd), fd, client))
            case Dialing(client) =>
              var s1 := s.(fds := s.fds - {fd});
              R.Reply(R.Then(Called(s1, client), R.Then(R.Close(fd, true, Closing(Close(s1, client), fd)), R.Stop)),
                  R.Stop)
    ensures |Let(s, fd).fds| < |s.fds|
  {
    hide ClientCalls, RemoteCalls, Close;
    Fewer(s.fds, fd);
  }

  lemma {:induction false} ClientCallsRefine(s: State, b: R.State, client: int)
    requires Mirrors(s, b)
    ensures Mirrors(OnClose(s, client), R.Run(b, ClientCalls(s, client)))
    decreases |s.fds|, 2
  {
    hide Mirrors, Close, R.CloseFd, Closing, Cleared;
    ClearedFds(s, client);
    SameKernel(s, client);
    MirrorsOn(s, Cleared(s, client), b, b);
    if client in s.tab.c2r {
      var s1, q := Cleared(s, client), s.tab.c2r[client];
      CloseRefines(s1, b, q);
      CallRuns(s1, b, q);
    }
  }

  lemma SameKernel(s: State, client: int)
    ensures Cleared(s, client).closing == s.closing && Cleared(s, client).opens == s.opens
  {
  }

  lemma CallRuns(s: State, b: R.State, fd: int)
    ensures R.Run(b, R.Then(Called(s, fd), R.Stop)) == R.CloseFd(b, fd, false, Closing(s, fd)).0
  {
    hide R.CloseFd, Closing;
  }

  lemma {:induction false} RemoteCallsRefine(s: State, b: R.State, remote: int, client: int)
    requires Mirrors(s, b)
    ensures Mirrors(OnRemoteClose(s, remote, client), R.Run(b, RemoteCalls(s, remote, client)))
    decreases |s.fds|, 2
  {
    hide Mirrors, Close, R.CloseFd, Closing, Called;
    var s' := OnRemoteClose(s, remote, client);
    if remote in s.tab.r2c {
      CloseRefines(s, b, client);
      CallRuns(s, b, client);
      var b' := R.CloseFd(b, client, false, Closing(s, client)).0;
      MirrorsOn(Close(s, client), s', b', b');
    } else {
      MirrorsOn(s, s', b, b);
    }
  }

  lemma {:induction false} FailedCallsRefine(s: State, b: R.State, remote: int, client: int)
    requires Mirrors(s, b) && remote !in s.fds
    ensures var calls := R.Then(Called(s, client),
          R.Then(R.Close(remote, true, Closing(Close(s, client), remote)), R.Stop));
            Mirrors(DialFailed(s, remote, client), R.Run(b, calls))
    decreases |s.fds|, 2
  {
    hide Mirrors, Close, R.CloseFd, Closing, R.Exec, R.Run;
    CloseRefines(s, b, client);
    CallIs(s, b, client);
    var s1, b1 := Close(s, client), R.Exec(b, Called(s, client));
    CloseShrinks(s, client);
    Alike(s1, b1, remote);
    var reply := Closing(s1, remote);
    CloseAbsent(b1, remote, true, reply);
    ForceIs(b1, remote, reply);
    MirrorsQueue(s1, b1, remote);
    var b2 := b1.(closing := b1.closing + [remote]);
    MirrorsOn(Queue(s1, remote), Queue(s1, remote), b2, R.Exec(b1, R.Close(remote, true, reply)));
    RunOne(b, Called(s, client), R.Then(R.Close(remote, true, reply), R.Stop));
    RunOne(b1, R.Close(remote, true, reply), R.Stop);
    RunOne(R.Exec(b1, R.Close(remote, true, reply)), Called(s, client), R.Stop);
  }

  lemma CallIs(s: State, b: R.State, fd: int)
    ensures R.Exec(b, Called(s, fd)) == R.CloseFd(b, fd, false, Closing(s, fd)).0
  {
    hide R.CloseFd, Closing;
  }

  lemma ForceIs(b: R.State, fd: int, reply: R.Reply)
    ensures R.Exec(b, R.Close(fd, true, reply)) == R.CloseFd(b, fd, true, reply).0
  {
    hide R.CloseFd;
  }
}
