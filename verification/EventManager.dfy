/** The reactor as an object: EventManager's fields, updated in place, proved against Reactor
    (EventManager.cpp). */
module EventManagers {
  import opened Bytes
  import opened Reactor
  import Output

  class EventManager {
    var fds: map<int, Callbacks>
    var writeBuf: map<int, bytes>
    var closeFds: seq<int>
    var currentFd: int
    var currentCb: Callbacks
    /** Not the program's own: the history, and the kernel's open descriptors. */
    var next: int
    var log: seq<Entry>
    var opens: map<int, int>
    var conns: int

    constructor ()
      ensures View() == Start
    {
      fds, writeBuf, closeFds, currentFd, currentCb := map[], map[], [], -1, map[];
      next, log, opens, conns := 0, [], map[], 0;
    }

    function View(): State
      reads this
    {
      State(fds, writeBuf, closeFds, currentFd, currentCb, next, log, opens, conns)
    }

    method WatchAll(fd: int, evs: set<EventType>, reWatch: bool)
      modifies this
      ensures View() == Reactor.WatchAll(old(View()), fd, evs, reWatch)
    {
      var callbacks := Register(fd, evs, next);
      if !reWatch {
        if fd == currentFd {
          currentCb := callbacks;
        }
      }
      log := log + [Gone(fd, Get(fds, fd), Replaced)] + [Made(fd, callbacks)];
      next := next + 1;
      fds := fds[fd := callbacks];
    }

    method WatchEvent(fd: int, ev: EventType)
      modifies this
      ensures View() == Reactor.WatchEvent(old(View()), fd, ev)
    {
      var callback := Reg(fd, ev, next);
      log := log + [Gone(fd, Only(Get(fds, fd), ev), Replaced)] + [Made(fd, map[ev := callback])];
      next := next + 1;
      var ecb := if fd in fds then fds[fd] else map[];
      fds := fds[fd := ecb[ev := callback]];
      if fd == currentFd {
        currentCb := currentCb[ev := callback];
      }
    }

    method AutoRewatch(fd: int)
      modifies this
      ensures View() == Reactor.AutoRewatch(old(View()), fd)
    {
      if fd !in fds {
        fds := fds[fd := map[]];
      } else {
        assert fds == fds[fd := Get(fds, fd)];
      }
    }

    method Unwatch(fd: int, why: Why, gameOver: Script) returns (r: bool)
      modifies this
      ensures (View(), r) == UnwatchFd(old(View()), fd, why, gameOver)
      decreases gameOver, 1
    {
      hide Reactor.Run;
      if fd !in fds {
        return false;
      }
      var cb := fds[fd];
      if fd == currentFd {
        currentCb := map[];
      }
      fds := fds - {fd};
      log := log + [Gone(fd, Dropped(cb, why), why)];
      if why == Quietly {
        return true;
      }
      if OnConnect in cb {
        Call(cb[OnConnect], GameOver, gameOver);
      }
      return true;
    }

    /** A callback is called, and does what its script says. */
    method Call(f: Reg, result: Result, script: Script)
      modifies this
      ensures View() == Reactor.Run(Fire(old(View()), f, result), script)
      decreases script, 0, 2
    {
      hide Reactor.Run;
      log := log + [Fired(f, result)];
      Run(script);
    }

    method Close(fd: int, force: bool, reply: Reply) returns (r: bool)
      modifies this
      ensures (View(), r) == CloseFd(old(View()), fd, force, reply)
      decreases reply, 1
    {
      hide Reactor.Run, UnwatchFd;
      writeBuf := writeBuf - {fd};
      if fd in fds && OnClose in fds[fd] {
        var f := fds[fd][OnClose];
        var ret := Unwatch(fd, Closed, reply.gameOver);
        UnwatchTrue(old(View()).(writeBuf := old(writeBuf) - {fd}), fd, Closed, reply.gameOver);
        if ret || force {
          closeFds := closeFds + [fd];
        }
        Call(f, Plain, reply.closed);
        return ret;
      }
      var ret := Unwatch(fd, Closed, reply.gameOver);
      if ret || force {
        closeFds := closeFds + [fd];
      }
      return true;
    }

    /** write(): through the pending bytes if there are any, else a loop over ::write. */
    method Write(fd: int, data: bytes, answers: seq<Output.Answer>, reply: Reply) returns (size: int)
      modifies this
      ensures (View(), size) == WriteFd(old(View()), fd, data, answers, reply)
      decreases reply, 2
    {
      hide Reactor.AutoRewatch, CloseFd;
      if fd in writeBuf {
        writeBuf := writeBuf[fd := writeBuf[fd] + data];
        return 0;
      }
      var k := Output.WriteLoop(|data|, answers);
      assert [] + data[..k.taken] == data[..k.taken];
      match k.end {
        case Blocked =>
          writeBuf := writeBuf[fd := data[k.taken..]];
          AutoRewatch(fd);
          return k.taken;
        case Broken =>
          var _ := Close(fd, false, reply);
          return -1;
        case Failed =>
          return -1;
        case Done =>
          return |data|;
      }
    }

    method FinishWrite(fd: int, answers: seq<Output.Answer>, reply: Reply) returns (done: bool)
      modifies this
      ensures (View(), done) == FinishWriteBuf(old(View()), fd, answers, reply)
    {
      hide WriteFd;
      if fd !in writeBuf {
        return true;
      }
      var buf := writeBuf[fd];
      writeBuf := writeBuf - {fd};
      var size := Write(fd, buf, answers, reply);
      return size == |buf|;
    }

    method Exec(op: Op)
      modifies this
      ensures View() == Reactor.Exec(old(View()), op)
      decreases op, 0
    {
      hide Reactor.Run, UnwatchFd, CloseFd, WriteFd, Reactor.WatchAll, Reactor.WatchEvent, Reactor.AutoRewatch;
      match op {
        case Watch(fd, evs) => WatchAll(fd, evs, false);
        case WatchOne(fd, ev) => WatchEvent(fd, ev);
        case Rewatch(fd) => AutoRewatch(fd);
        case Unwatch(fd, quiet, gameOver) =>
          var _ := Unwatch(fd, if quiet then Quietly else Unwatched, gameOver);
        case Close(fd, force, reply) =>
          var _ := Close(fd, force, reply);
        case Write(fd, data, answers, reply) =>
          var _ := Write(fd, data, answers, reply);
        case Accept(fd, evs) =>
          if fd !in opens {
            opens, conns := opens[fd := conns], conns + 1;
            WatchAll(fd, evs, false);
          }
        case Connect(fd, evs, how, answered) =>
          if fd !in opens {
            opens, conns := opens[fd := conns], conns + 1;
            match how {
              case Fails =>
                var _ := Unwatch(fd, Quietly, answered);
                Run(answered);
              case AtOnce =>
                Run(answered);
                if !(evs <= {OnConnect}) {
                  WatchAll(fd, evs - {OnConnect}, true);
                }
              case Later =>
                WatchAll(fd, evs, true);
            }
          }
      }
    }

    method Run(script: Script)
      modifies this
      ensures View() == Reactor.Run(old(View()), script)
      decreases script, 0, 1
    {
      hide Reactor.Exec;
      match script {
        case Stop =>
        case Then(op, rest) =>
          Exec(op);
          Run(rest);
      }
    }

    /** One event's turn, after any CONNECT callback: read, write, error, hang-up. */
    method AfterConnect(e: Event)
      modifies this
      ensures View() == Stages(old(View()), e)
    {
      hide Reactor.Run, FinishWriteBuf, Reactor.AutoRewatch, UnwatchFd;
      if e.input {
        if OnRead in currentCb {
          Call(currentCb[OnRead], Plain, e.read);
        }
      }
      assert View() == ReadStage(old(View()), e);
      Writable(e);
      var hup := e.hangup || e.peerClosed;
      if e.error {
        if OnError in currentCb {
          Call(currentCb[OnError], Plain, e.failed);
        } else {
          hup := true;
        }
      }
      if hup {
        HangUp(e);
      }
    }

    method Writable(e: Event)
      modifies this
      ensures View() == WriteStage(old(View()), e)
    {
      hide Reactor.Run, FinishWriteBuf, Reactor.AutoRewatch;
      if e.output {
        var done := FinishWrite(currentFd, e.answers, e.flush);
        if done {
          if OnWrite in currentCb {
            Call(currentCb[OnWrite], Plain, e.written);
          } else {
            AutoRewatch(currentFd);
          }
        }
      }
    }

    method HangUp(e: Event)
      modifies this
      ensures View() == HangupStage(old(View()), e)
    {
      hide Reactor.Run, UnwatchFd;
      if OnClose in currentCb {
        var f := currentCb[OnClose];
        var ok := Unwatch(currentFd, Closed, e.hung.gameOver);
        if ok {
          closeFds := closeFds + [currentFd];
          Call(f, Plain, e.hung.closed);
        }
      } else {
        var ok := Unwatch(currentFd, Closed, e.hung.gameOver);
        if ok {
          closeFds := closeFds + [currentFd];
        }
      }
    }

    method HandleEvent(e: Event)
      modifies this
      ensures View() == Dispatch(old(View()), e)
    {
      hide Reactor.Run, Stages, UnwatchFd;
      currentFd := e.fd;
      if currentFd !in fds {
        return;
      }
      currentCb := fds[currentFd];
      if OnConnect in currentCb {
        var f := currentCb[OnConnect];
        var failed := e.error || e.hangup || !e.output || e.sockError;
        fds := fds[currentFd := fds[currentFd] - {OnConnect}];
        currentCb := currentCb - {OnConnect};
        if failed {
          var _ := Unwatch(currentFd, ConnectFailed, e.connected);
          Call(f, Refused, e.connected);
          return;
        }
        Call(f, Connected, e.connected);
      }
      AfterConnect(e);
    }

    method HandleEvents(events: seq<Event>)
      modifies this
      ensures View() == Reactor.HandleEvents(old(View()), events)
    {
      hide Dispatch;
      for i := 0 to |events|
        invariant View() == DispatchAll(old(View()), events[..i])
      {
        HandleEvent(events[i]);
        assert events[..i + 1][..i] == events[..i];
      }
      assert events[..|events|] == events;
      currentFd := -1;
      var i := 0;
      ghost var was := opens;
      while i < |closeFds|
        invariant 0 <= i <= |closeFds| && closeFds == DispatchAll(old(View()), events).closing
        invariant View()
               == DispatchAll(old(View()), events).(cur := -1, opens := was - set k | 0 <= k < i :: closeFds[k])
      {
        opens := opens - {closeFds[i]};
        i := i + 1;
      }
      assert (set k | 0 <= k < |closeFds| :: closeFds[k]) == set fd | fd in closeFds;
      closeFds := [];
    }
  }
}
