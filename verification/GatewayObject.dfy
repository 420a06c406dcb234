/** The gateway as an object updated in place, proved against Gateways (HttpGateway.cpp). */
module GatewayObjects {
  import opened Bytes
  import opened Reader
  import opened Bufferables
  import opened HttpProtocol
  import HttpProxy
  import opened GatewayResponses
  import opened Gateways

  class HttpGateway {
    var fds: map<int, Role>
    var closeFds: seq<int>
    var opens: set<int>
    var state: map<int, Phase>
    var buf: map<int, bytes>
    var c2r: map<int, int>
    var r2c: map<int, int>
    var forwardInfo: map<int, Request>
    var halted: bool
    /** Not the program's own: what went through the connections. */
    var lives: map<int, Life>
    var ups: map<int, Upstream>

    constructor ()
      ensures View() == Start
    {
      fds, closeFds, opens, lives, ups, halted := map[], [], {}, map[], map[], false;
      state, buf, c2r, r2c, forwardInfo := map[], map[], map[], map[], map[];
    }

    function View(): State
      reads this
    {
      State(fds, closeFds, opens, Tables(state, buf, c2r, r2c, forwardInfo), lives, ups, halted)
    }

    method Let(fd: int)
      modifies this
      ensures View() == Gateways.Let(old(View()), fd)
    {
      fds := fds - {fd};
      closeFds := closeFds + [fd];
    }

    method Close(fd: int)
      modifies this
      ensures View() == Gateways.Close(old(View()), fd)
      decreases |fds|, 0
    {
      hide Gateways.OnClose, Gateways.OnRemoteClose, Gateways.DialFailed;
      if fd !in fds {
        return;
      }
      Fewer(fds, fd);
      match fds[fd] {
        case Client =>
          Let(fd);
          OnClose(fd);
        case Linked(client) =>
          Let(fd);
          OnRemoteClose(fd, client);
        case Dialing(client) =>
          fds := fds - {fd};
          DialFailed(fd, client);
          closeFds := closeFds + [fd];
      }
    }

    method DialFailed(remote: int, client: int)
      modifies this
      ensures View() == Gateways.DialFailed(old(View()), remote, client)
      decreases |fds|, 1
    {
      hide Gateways.Close;
      Close(client);
      closeFds := closeFds + [remote];
    }

    method OnClose(client: int)
      modifies this
      ensures View() == Gateways.OnClose(old(View()), client)
      decreases |fds|, 1
    {
      hide Gateways.Close;
      buf := buf - {client};
      state := state - {client};
      if client in c2r {
        var remote := c2r[client];
        c2r := c2r - {client};
        // close_remote
        buf := buf - {remote};
        r2c := r2c - {remote};
        Close(remote);
      }
    }

    method CloseRemote(remote: int)
      modifies this
      ensures View() == Gateways.CloseRemote(old(View()), remote)
    {
      hide Gateways.Close;
      buf := buf - {remote};
      r2c := r2c - {remote};
      Close(remote);
    }

    method OnRemoteClose(remote: int, client: int)
      modifies this
      ensures View() == Gateways.OnRemoteClose(old(View()), remote, client)
      decreases |fds|, 1
    {
      hide Gateways.Close;
      if remote in r2c {
        Close(client);
      }
      buf := buf - {remote};
      forwardInfo := forwardInfo - {client};
    }

    method OnMessage(client: int, message: bytes, fate: Fate)
      modifies this
      ensures View() == Gateways.OnMessage(old(View()), client, message, fate)
    {
      hide Gateways.Close, Parsed, ParseRequest;
      var whole := message;
      if client in buf {
        whole := buf[client] + message;
        buf := buf - {client};
      } else {
        assert [] + message == message && buf - {client} == buf;
      }
      if PhaseOf(View(), client) == ParsingResponse {
        buf := buf[client := whole];
        return;
      }
      ParseOne(client, whole, fate);
    }

    /** The request at the front of `whole`, and what becomes of it. */
    method ParseOne(client: int, whole: bytes, fate: Fate)
      modifies this
      ensures View() == Parsed(old(View()), client, whole, fate)
    {
      hide Gateways.Close, ParseRequest, Gateways.Dial, Gateways.Take;
      var r := FirstRequest(whole);
      match r {
        case Again =>
          buf := buf[client := whole];
        case Bad =>
          Close(client);
        case Ok(request, rest) =>
          var index := |LifeOf(View(), client).taken|;
          Take(client, request, rest);
          TakeParts(old(View()), client, request, rest);
          if !fate.ok {
            Close(client);
            return;
          }
          if fate.how == Fails || fate.remote in opens {
            forwardInfo := forwardInfo[client := request];
            Close(client);
            return;
          }
          Dial(client, request, fate.remote, index);
      }
    }

    method Take(client: int, request: Request, rest: bytes)
      modifies this
      ensures View() == Gateways.Take(old(View()), client, request, rest)
    {
      var l := LifeOf(View(), client);
      buf := buf[client := rest];
      state := state[client := ParsingResponse];
      lives := lives[client := l.(taken := l.taken + [request])];
    }

    /** connect() under way: the descriptor is watched, then both tables are set. */
    method Dial(client: int, request: Request, remote: int, index: nat)
      modifies this
      ensures View() == Gateways.Dial(old(View()), client, request, remote, index)
    {
      forwardInfo := forwardInfo[client := request];
      fds := fds[remote := Dialing(client)];
      opens := opens + {remote};
      ups := ups[remote := Upstream(index, [], [])];
      c2r := c2r[client := remote];
      r2c := r2c[remote := client];
    }

    static method FirstRequest(whole: bytes) returns (p: Parse<Request>)
      ensures p == ParseRequest(whole)
    {
      hide ParseRequest;
      var s := new StreamReader(whole);
      assert whole[0..] == whole;
      var r := ReadRequest(s);
      match r {
        case AG => return Again;
        case NG => return Bad;
        case Got(request) => return Ok(request, whole[s.offset..]);
      }
    }

    static method FirstResponse(whole: bytes) returns (p: Parse<HttpProxy.Response>)
      ensures p == ParseUpstream(whole)
    {
      hide ParseUpstream;
      var s := new StreamReader(whole);
      assert whole[0..] == whole;
      var r := ReadUpstream(s);
      match r {
        case AG => return Again;
        case NG => return Bad;
        case Got(response) => return Ok(response, whole[s.offset..]);
      }
    }

    method OnRemoteConnect(remote: int, client: int)
      modifies this
      ensures View() == Gateways.OnRemoteConnect(old(View()), remote, client)
    {
      var u := UpstreamOf(View(), remote);
      ups := ups[remote := u.(asked := u.asked + [ForwardOf(View(), client)])];
      fds := fds[remote := Linked(client)];
    }

    method Hear(remote: int, message: bytes) returns (whole: bytes)
      modifies this
      ensures View() == Gateways.Hear(old(View()), remote, message) && whole == Saved(old(buf), remote) + message
    {
      whole := message;
      var u := UpstreamOf(View(), remote);
      if remote in buf {
        whole := buf[remote] + message;
        buf := buf - {remote};
      } else {
        assert [] + message == message && buf - {remote} == buf;
      }
      ups := ups[remote := u.(heard := u.heard + message)];
    }

    /** ON_RESPONSE, and the write to the client. */
    method Respond(client: int, a: Answer)
      modifies this
      ensures View() == Answered(old(View()), client, a)
    {
      var l := LifeOf(View(), client);
      lives := lives[client := l.(answers := l.answers + [a])];
    }

    /** An exception that nothing catches. */
    method Halt()
      modifies this
      ensures View() == Gateways.Halt(old(View()))
    {
      fds, closeFds, opens, halted := map[], [], {}, true;
      state, buf, c2r, r2c, forwardInfo := map[], map[], map[], map[], map[];
    }

    /** `broken`: the write to the client meets a broken pipe, and close(client) is called from within. */
    method OnRemoteMessage(remote: int, client: int, message: bytes, broken: bool, fate: Fate)
      modifies this
      ensures View() == Gateways.OnRemoteMessage(old(View()), remote, client, message, broken, fate)
    {
      hide Gateways.Close, Gateways.CloseRemote, Next, ParseUpstream, LastRequest, Throws, Answered, Gateways.Hear,
          Gateways.Halt;
      var u := UpstreamOf(View(), remote);
      var whole := Hear(remote, message);
      var r := FirstResponse(whole);
      match r {
        case Again =>
          buf := buf[remote := whole];
        case Bad =>
          Close(remote);
        case Ok(response, _) =>
          Respond(client, Answer(ForwardOf(View(), client), response, u.index, u.asked, u.heard + message));
          if broken {
            Close(client);
          }
          var request := ForwardOf(View(), client);
          if Throws(request) {
            Halt();
            return;
          }
          if LastRequest(request) {
            Close(client);
            return;
          }
          CloseRemote(remote);
          TriggerNext(client, fate);
      }
    }

    method TriggerNext(client: int, fate: Fate)
      modifies this
      ensures View() == Next(old(View()), client, fate)
    {
      hide Gateways.OnMessage;
      state := state[client := ParsingRequest];
      if client in buf {
        var message := buf[client];
        buf := buf - {client};
        OnMessage(client, message, fate);
      }
    }
  }
}
