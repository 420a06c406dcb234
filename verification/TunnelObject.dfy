/** The tunnel and its server as objects updated in place, proved against Tunnels
    (ITunnelLike.cpp, Proxy.cpp, Remote.cpp over EventManager.cpp and ClientServer.cpp). */
module TunnelObjects {
  import opened Bytes
  import opened Bufferables
  import opened Tunnels
  import Output

  class Tunnel {
    const withId: bool
    var fds: map<int, Role>
    var closeFds: seq<int>
    var c2s: map<int, int>
    var sessionId: int
    var c2r: map<int, int>
    var r2c: map<int, int>
    var state: map<int, ConnectState>
    var buf: map<int, bytes>
    /** The kernel's side: open descriptors and what went through them. */
    var opens: set<int>
    var wires: map<int, Wire>

    constructor (withId: bool)
      ensures this.withId == withId && View() == Start(withId)
    {
      this.withId := withId;
      fds, closeFds, c2s, sessionId, opens, wires := map[], [], map[], 0, {}, map[];
      c2r, r2c, state, buf := map[], map[], map[], map[];
    }

    function Srv(): Server
      reads this
    {
      Server(fds, closeFds, opens, wires, c2s, sessionId)
    }

    function View(): State
      reads this
    {
      State(withId, Srv(), Tables(c2r, r2c, state, buf))
    }

    method RegisterPairInfo(client: int, remote: int)
      modifies this
      ensures View() == old(View()).(tab := Register(old(View()).tab, client, remote))
    {
      c2r := c2r[client := remote];
      r2c := r2c[remote := client];
    }

    method EraseClientInfo(client: int)
      modifies this
      ensures View() == old(View()).(tab := EraseInfo(old(View()).tab, client))
    {
      state := state - {client};
      buf := buf - {client};
      if client in c2r {
        var remote := c2r[client];
        r2c := r2c - {remote};
        c2r := c2r - {client};
      }
    }

    /** ClientServer::unwatch around EventManager's, for a descriptor without a CONNECT callback. */
    method Unwatch(fd: int) returns (r: bool)
      modifies this
      ensures r == (fd in old(fds)) && View() == old(View()).(srv := Tunnels.Unwatch(old(Srv()), fd))
    {
      if fd !in fds {
        return false;
      }
      fds := fds - {fd};
      c2s := c2s - {fd};
      return true;
    }

    method Close(fd: int, force: bool)
      modifies this
      ensures View() == Tunnels.Close(old(View()), fd, force)
      decreases |fds|, 0
    {
      hide Tunnels.OnClose, Tunnels.OnRemoteClose, Tunnels.DialFailed, WireOf;
      var w := WireOf(Srv(), fd);
      wires := wires[fd := w.(channel := w.channel.(waiting := Output.Nothing))];
      if fd !in fds {
        if force {
          closeFds := closeFds + [fd];
        }
        return;
      }
      Fewer(fds, fd);
      match fds[fd] {
        case Bare =>
          var _ := Unwatch(fd);
          closeFds := closeFds + [fd];
        case Client =>
          var _ := Unwatch(fd);
          closeFds := closeFds + [fd];
          OnClose(fd);
        case Linked(client) =>
          var _ := Unwatch(fd);
          closeFds := closeFds + [fd];
          OnRemoteClose(client);
        case Dialing(client) =>
          var _ := Unwatch(fd);
          DialFailed(fd, client);
          closeFds := closeFds + [fd];
      }
    }

    method OnClose(client: int)
      modifies this
      ensures View() == Tunnels.OnClose(old(View()), client)
      decreases |fds|, 1
    {
      hide Tunnels.Close;
      if client !in c2r {
        return;
      }
      var remote := c2r[client];
      EraseClientInfo(client);
      Close(remote, false);
    }

    method OnRemoteClose(client: int)
      modifies this
      ensures View() == Tunnels.OnRemoteClose(old(View()), client)
      decreases |fds|, 1
    {
      hide Tunnels.Close;
      if client !in c2r {
        return;
      }
      EraseClientInfo(client);
      Close(client, false);
    }

    /** on_remote_connect for NG and GAME_OVER, in its wrapper. */
    method DialFailed(remote: int, client: int)
      modifies this
      ensures View() == Tunnels.DialFailed(old(View()), remote, client)
      decreases |fds|, 2
    {
      hide Tunnels.Close;
      EraseClientInfo(client);
      Close(client, false);
      Close(remote, true);
    }

    method AutoRewatch(fd: int)
      modifies this
      ensures View() == old(View()).(srv := Tunnels.AutoRewatch(old(Srv()), fd))
    {
      if fd !in fds {
        fds := fds[fd := Bare];
      }
    }

    method Put(fd: int, c: Output.Channel, end: Output.End)
      modifies this
      ensures View() == Tunnels.Put(old(View()), fd, c, end)
    {
      hide Tunnels.Close, Tunnels.AutoRewatch, WireOf;
      wires := wires[fd := WireOf(Srv(), fd).(channel := c)];
      match end {
        case Blocked => AutoRewatch(fd);
        case Broken => Close(fd, false);
        case _ =>
      }
    }

    method Write(fd: int, data: bytes, answers: seq<Output.Answer>)
      modifies this
      ensures View() == Tunnels.Write(old(View()), fd, data, answers)
    {
      hide Tunnels.Put, WireOf;
      var c := WireOf(Srv(), fd).channel;
      if c.waiting.Bytes? {
        Put(fd, c.(waiting := Output.Bytes(c.waiting.data + data)), Output.Done);
        return;
      }
      var k := Output.WriteLoop(|data|, answers);
      c := c.(out := c.out + data[..k.taken]);
      if k.end == Output.Blocked {
        c := c.(waiting := Output.Bytes(data[k.taken..]));
      }
      Put(fd, c, k.end);
    }

    method OnMessage(client: int, message: bytes, answers: seq<Output.Answer>)
      modifies this
      ensures View() == Tunnels.OnMessage(old(View()), client, message, answers)
    {
      hide Tunnels.Write;
      var whole := message;
      if client in buf {
        whole := buf[client] + message;
        buf := buf - {client};
      } else {
        assert [] + message == message;
        assert buf - {client} == buf;
      }
      if StateOf(Tables(c2r, r2c, state, buf), client) != Connected {
        buf := buf[client := whole];
        assert buf == old(buf)[client := whole];
        return;
      }
      var remote := if client in c2r then c2r[client] else 0;
      c2r := c2r[client := remote];
      Write(remote, whole, answers);
    }

    method OnRemoteMessage(client: int, message: bytes, answers: seq<Output.Answer>)
      modifies this
      ensures View() == Tunnels.Write(old(View()), client, message, answers)
    {
      hide Tunnels.Write;
      Write(client, message, answers);
    }

    method SendSessionId(remote: int, client: int, answers: seq<Output.Answer>)
      modifies this
      ensures View() == SendId(old(View()), remote, client, answers)
    {
      hide Tunnels.Write;
      if withId {
        Write(remote, BigEndian(4, Id(Srv(), client)), answers);
      }
    }

    /** on_remote_connect told OK. */
    method OnRemoteConnect(remote: int, client: int, idAnswers: seq<Output.Answer>, answers: seq<Output.Answer>)
      modifies this
      ensures View() == RemoteConnected(old(View()), remote, client, idAnswers, answers)
    {
      hide Tunnels.OnMessage, SendId;
      if withId && client !in c2s {
        return;
      }
      SendSessionId(remote, client, idAnswers);
      SameKindSend(old(View()), remote, client, idAnswers);
      state := state[client := Connected];
      if client in buf {
        var message := buf[client];
        buf := buf - {client};
        OnMessage(client, message, answers);
      }
    }

    lemma SameKindSend(s: State, remote: int, client: int, answers: seq<Output.Answer>)
      ensures SendId(s, remote, client, answers).withId == s.withId
    {
      hide Tunnels.Close, Output.Write, WireOf, SetChannel, Tunnels.AutoRewatch;
    }

    method Open(fd: int)
      modifies this
      ensures View() == old(View()).(srv := OpenFd(old(Srv()), fd))
    {
      var w := WireOf(Srv(), fd).channel.waiting;
      opens := opens + {fd};
      wires := wires[fd := Wire(Output.Channel([], w), Output.Owed(w), [])];
    }

    /** accept(), on_connect(client) with its ::connect, and the watch for the client. */
    method OnConnect(client: int, remote: int, how: How, idAnswers: seq<Output.Answer>, answers: seq<Output.Answer>)
      modifies this
      ensures View() == Accepted(old(View()), client, remote, how, idAnswers, answers)
    {
      hide OpenFd, RemoteConnected, Tunnels.DialFailed;
      Open(client);
      sessionId := (sessionId + 1) % 0x1_0000_0000;
      c2s := c2s[client := sessionId];
      OpenKeepsSessions(old(Srv()), client);
      assert Srv() == NewClient(old(Srv()), client);
      state := state[client := B4Connect];
      Open(remote);
      match how {
        case Fails =>
          var _ := Unwatch(remote);
          DialFailed(remote, client);
        case AtOnce =>
          OnRemoteConnect(remote, client, idAnswers, answers);
          fds := fds[remote := Linked(client)];
          RegisterPairInfo(client, remote);
        case Later =>
          fds := fds[remote := Dialing(client)];
          state := state[client := Connecting];
          RegisterPairInfo(client, remote);
      }
      fds := fds[client := Client];
    }

    lemma OpenKeepsSessions(srv: Server, fd: int)
      ensures OpenFd(srv, fd) == srv.(opens := OpenFd(srv, fd).opens, wires := OpenFd(srv, fd).wires)
    {
    }
  }
}
