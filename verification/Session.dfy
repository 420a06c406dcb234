/** Handing a client over: the master announces the client's session id and passes its bytes on; a
    worker recovers the id and gives the rest to its protocol (ClientServer.cpp, Remote.cpp). */
module Sessions {
  import opened Bytes
  import opened Bufferables
  import Output
  import T = Tunnels

  /** What a worker does that others see: running a session task, giving a chunk to the protocol, and
      letting a descriptor go. */
  datatype Act = Ran(fd: int, task: int) | Gave(fd: int, message: bytes) | Left(fd: int)

  /** `reading`: the descriptors whose READ callback is the protocol's own. */
  datatype Worker = Worker(
    c2s: map<int, int>, s2c: map<int, int>, buf: map<int, bytes>, reading: set<int>, tasks: map<int, seq<int>>,
    log: seq<Act>)

  const Idle := Worker(map[], map[], map[], {}, map[], [])

  function TasksFor(tasks: map<int, seq<int>>, fd: int): seq<int> {
    if fd in tasks then tasks[fd] else []
  }

  function RunTasks(fd: int, tasks: seq<int>): seq<Act> {
    if tasks == [] then [] else RunTasks(fd, tasks[..|tasks| - 1]) + [Ran(fd, tasks[|tasks| - 1])]
  }

  /** recv_session_id(): the message left over, once four bytes have come. */
  datatype Recv = More | Id(rest: bytes)

  function RecvSessionId(w: Worker, fd: int, message: bytes): (Worker, Recv) {
    var whole := Saved(w.buf, fd) + message;
    if |whole| < 4 then (w.(buf := w.buf[fd := whole]), More)
    else
      var id := FromBigEndian(whole[..4]);
      (w.(buf := w.buf - {fd}, c2s := w.c2s[fd := id], s2c := w.s2c[id := fd]), Id(whole[4..]))
  }

  /** The READ callback: initial_message_wrapper's until the id is known, then the protocol's. */
  function Message(w: Worker, fd: int, message: bytes): Worker {
    if fd in w.reading then w.(log := w.log + [Gave(fd, message)])
    else
      var (w1, r) := RecvSessionId(w, fd, message);
      if r.More? then w1
      else
        var log := w1.log + RunTasks(fd, TasksFor(w1.tasks, fd));
        w1.(tasks := w1.tasks - {fd}, reading := w1.reading + {fd},
            log := if |r.rest| > 0 then log + [Gave(fd, r.rest)] else log)
  }

  function AddSessionTask(w: Worker, fd: int, task: int): Worker {
    if fd !in w.c2s then w.(tasks := w.tasks[fd := TasksFor(w.tasks, fd) + [task]])
        else w.(log := w.log + [Ran(fd, task)])
  }

  /** ClientServer::unwatch. */
  function Unwatch(w: Worker, fd: int): Worker {
    var w1 := if fd in w.c2s then w.(s2c := w.s2c - {w.c2s[fd]}, c2s := w.c2s - {fd}) else w;
    w1.(tasks := w1.tasks - {fd}, buf := w1.buf - {fd}, reading := w1.reading - {fd}, log := w1.log + [Left(fd)])
  }

  datatype Event = Chunk(fd: int, message: bytes) | Task(fd: int, task: int) | Gone(fd: int)

  function Step(w: Worker, e: Event): Worker {
    match e
    case Chunk(fd, message) => Message(w, fd, message)
    case Task(fd, task) => AddSessionTask(w, fd, task)
    case Gone(fd) => Unwatch(w, fd)
  }

  function Run(events: seq<Event>): Worker {
    if events == [] then Idle else Step(Run(events[..|events| - 1]), events[|events| - 1])
  }

  // ---- What went in and what came out, for one descriptor's present connection ----

  function Received(events: seq<Event>, fd: int): bytes {
    if events == [] then []
    else
      var before, last := Received(events[..|events| - 1], fd), events[|events| - 1];
      if last == Gone(fd) then [] else if last.Chunk? && last.fd == fd then before + last.message else before
  }

  function Asked(events: seq<Event>, fd: int): seq<int> {
    if events == [] then []
    else
      var before, last := Asked(events[..|events| - 1], fd), events[|events| - 1];
      if last == Gone(fd) then [] else if last.Task? && last.fd == fd then before + [last.task] else before
  }

  function Given(log: seq<Act>, fd: int): bytes {
    if log == [] then []
    else
      var before, last := Given(log[..|log| - 1], fd), log[|log| - 1];
      if last == Left(fd) then [] else if last.Gave? && last.fd == fd then before + last.message else before
  }

  function Done(log: seq<Act>, fd: int): seq<int> {
    if log == [] then []
    else
      var before, last := Done(log[..|log| - 1], fd), log[|log| - 1];
      if last == Left(fd) then [] else if last.Ran? && last.fd == fd then before + [last.task] else before
  }

  /** The state one descriptor is in, after receiving `t` and being asked for tasks `ts`. */
  ghost predicate Settled(w: Worker, fd: int, t: bytes, ts: seq<int>) {
    && (fd in w.reading <==> |t| >= 4) && (fd in w.c2s <==> |t| >= 4)
    && (|t| >= 4 ==> w.c2s[fd] == FromBigEndian(t[..4]))
    && Saved(w.buf, fd) == (if |t| < 4 then t else [])
    && Given(w.log, fd) == (if |t| < 4 then [] else t[4..])
    && (if |t| < 4 then Done(w.log, fd) == [] && TasksFor(w.tasks, fd) == ts
        else Done(w.log, fd) == ts && TasksFor(w.tasks, fd) == [])
  }

  lemma LogStep(log: seq<Act>, a: Act, fd: int)
    ensures Given(log + [a], fd)
         == if a == Left(fd) then [] else if a.Gave? && a.fd == fd then Given(log, fd) + a.message else Given(log, fd)
    ensures Done(log + [a], fd)
         == if a == Left(fd) then [] else if a.Ran? && a.fd == fd then Done(log, fd) + [a.task] else Done(log, fd)
  {
    assert (log + [a])[..|log|] == log;
  }

  lemma {:induction false} TasksLog(log: seq<Act>, at: int, tasks: seq<int>, fd: int)
    ensures var l := log + RunTasks(at, tasks);
            && Given(l, fd) == Given(log, fd)
            && Done(l, fd) == Done(log, fd) + if at == fd then tasks else []
  {
    hide Given, Done;
    if tasks == [] {
      assert log + [] == log;
    } else {
      var front, last := tasks[..|tasks| - 1], tasks[|tasks| - 1];
      TasksLog(log, at, front, fd);
      LogStep(log + RunTasks(at, front), Ran(at, last), fd);
      assert log + RunTasks(at, tasks) == log + RunTasks(at, front) + [Ran(at, last)];
      assert front + [last] == tasks;
    }
  }

  lemma MessageSettles(w: Worker, fd: int, message: bytes, t: bytes, ts: seq<int>)
    requires Settled(w, fd, t, ts)
    ensures Settled(Message(w, fd, message), fd, t + message, ts)
  {
    hide Given, Done, RunTasks;
    var whole := t + message;
    if |t| >= 4 {
      LogStep(w.log, Gave(fd, message), fd);
      assert whole[..4] == t[..4] && whole[4..] == t[4..] + message;
    } else if |whole| >= 4 {
      var log := w.log + RunTasks(fd, ts);
      TasksLog(w.log, fd, ts, fd);
      assert [] + ts == ts && [] + whole[4..] == whole[4..];
      LogStep(log, Gave(fd, whole[4..]), fd);
    }
  }

  lemma OtherChunk(w: Worker, at: int, message: bytes, fd: int, t: bytes, ts: seq<int>)
    requires Settled(w, fd, t, ts) && at != fd
    ensures Settled(Message(w, at, message), fd, t, ts)
  {
    hide Given, Done, RunTasks, FromBigEndian;
    var pending := TasksFor(w.tasks, at);
    var whole := Saved(w.buf, at) + message;
    TasksLog(w.log, at, pending, fd);
    assert Done(w.log, fd) + [] == Done(w.log, fd);
    LogStep(w.log, Gave(at, message), fd);
    if |whole| >= 4 {
      LogStep(w.log + RunTasks(at, pending), Gave(at, whole[4..]), fd);
    }
  }

  /** What happens on one descriptor is nothing to another. */
  lemma OthersSettle(w: Worker, e: Event, fd: int, t: bytes, ts: seq<int>)
    requires Settled(w, fd, t, ts) && e.fd != fd
    ensures Settled(Step(w, e), fd, t, ts)
  {
    hide Given, Done, RunTasks, Message;
    match e {
      case Chunk(at, message) => OtherChunk(w, at, message, fd, t, ts);
      case Task(at, task) => LogStep(w.log, Ran(at, task), fd);
      case Gone(at) => LogStep(w.log, Left(at), fd);
    }
  }

  /** In every run of a worker, with chunks of any size and any interleaving of descriptors, tasks and
      closes: nothing reaches the protocol and no task runs before the four bytes of the id; from then on
      the id is theirs, the tasks asked for have run in order, once each, and the protocol has been given
      exactly the bytes after the id. A number used again starts afresh. */
  lemma {:induction false} WorkerSettled(events: seq<Event>, fd: int)
    ensures Settled(Run(events), fd, Received(events, fd), Asked(events, fd))
  {
    hide Step, Settled;
    if events == [] {
      IdleSettled(fd);
    } else {
      var front, e := events[..|events| - 1], events[|events| - 1];
      WorkerSettled(front, fd);
      var w, t, ts := Run(front), Received(front, fd), Asked(front, fd);
      if e.fd != fd {
        OthersSettle(w, e, fd, t, ts);
      } else {
        SameSettles(w, e, t, ts);
      }
    }
  }

  lemma IdleSettled(fd: int)
    ensures Settled(Idle, fd, [], [])
  {
  }

  lemma SameSettles(w: Worker, e: Event, t: bytes, ts: seq<int>)
    requires Settled(w, e.fd, t, ts)
    ensures match e
            case Chunk(fd, message) => Settled(Step(w, e), fd, t + message, ts)
            case Task(fd, task) => Settled(Step(w, e), fd, t, ts + [task])
            case Gone(fd) => Settled(Step(w, e), fd, [], [])
  {
    hide Given, Done, Message;
    match e {
      case Chunk(fd, message) => MessageSettles(w, fd, message, t, ts);
      case Task(fd, task) => LogStep(w.log, Ran(fd, task), fd);
      case Gone(fd) => LogStep(w.log, Left(fd), fd);
    }
  }

  // ---- Master and worker together ----

  lemma Pow4()
    ensures Pow256(4) == 0x1_0000_0000
  {
    assert Pow256(1) == 256 && Pow256(2) == 256 * 256 && Pow256(3) == 256 * 256 * 256;
  }

  /** All that is to go upstream for a client: what was owed under the number, the id, the client's bytes. */
  function Upstream(s: T.State, c: int): bytes
    requires c in s.tab.c2r && c in s.srv.c2s && s.srv.c2s[c] >= 0
  {
    T.WireOf(s.srv, s.tab.c2r[c]).stale + (BigEndian(4, s.srv.c2s[c]) + T.WireOf(s.srv, c).rcvd)
  }

  /** Session hand-off. A Remote master in any structural run, for a client whose upstream stream lost nothing, and the
      worker at the other end of that upstream connection in any run, cut into chunks anywhere on the way (`got` is
      what has arrived of what the master's kernel took). What has arrived begins the upstream bytes; the worker
      reads its id from the first four and gives its protocol the rest. So, unless something was owed under the
      upstream's number before, it knows exactly the master's id for the client and its protocol has exactly the
      client's bytes that have arrived. With fewer than four bytes arrived, it knows and has given nothing. */
  lemma SessionHandOff(events: seq<T.Event>, c: int, arrivals: seq<Event>, fd: int)
    requires T.StructuralRun(true, events) && c in T.Run(true, events).tab.c2r && T.Clean(true, events, c, T.Up)
    requires var s := T.Run(true, events);
             Received(arrivals, fd) <= T.WireOf(s.srv, s.tab.c2r[c]).channel.out
    ensures var s, w, got := T.Run(true, events), Run(arrivals), Received(arrivals, fd);
            && c in s.srv.c2s && 0 <= s.srv.c2s[c] < 0x1_0000_0000 && got <= Upstream(s, c)
            && (fd in w.c2s <==> |got| >= 4)
            && (|got| < 4 ==> Given(w.log, fd) == [])
            && (|got| >= 4 ==>
                  && w.c2s[fd] == FromBigEndian(Upstream(s, c)[..4])
                  && Given(w.log, fd) == Upstream(s, c)[4..|got|])
            && (|got| >= 4 && T.WireOf(s.srv, s.tab.c2r[c]).stale == [] ==>
                  && w.c2s[fd] == s.srv.c2s[c]
                  && |got| - 4 <= |T.WireOf(s.srv, c).rcvd| && Given(w.log, fd) == T.WireOf(s.srv, c).rcvd[..|got| - 4])
  {
    hide T.Run, Run, T.WireOf, T.Pairs, T.StructuralRun, T.Clean, FromBigEndian, BigEndian, Given, Done;
    var s, got := T.Run(true, events), Received(arrivals, fd);
    WorkerSettled(arrivals, fd);
    T.RunPairs(true, events);
    T.RunAccount(true, events, c, T.Up);
    T.RunKind(true, events);
    MasterStream(s, c);
    var up := Upstream(s, c);
    assert got == up[..|got|];
    if |got| >= 4 {
      var header, rcvd := BigEndian(4, s.srv.c2s[c]), T.WireOf(s.srv, c).rcvd;
      assert got[..4] == up[..4] && got[4..] == up[4..|got|];
      Pow4();
      BigEndianRoundTrip(4, s.srv.c2s[c]);
      if T.WireOf(s.srv, s.tab.c2r[c]).stale == [] {
        assert up == [] + (header + rcvd) == header + rcvd;
        assert up[..4] == header && up[4..|got|] == rcvd[..|got| - 4];
      }
    }
  }

  /** What the kernel took for a Remote's upstream begins the upstream bytes. */
  lemma MasterStream(s: T.State, c: int)
    requires T.Pairs(s) && s.withId && c in s.tab.c2r && T.Account(s, c, T.Up, false)
    ensures c in s.srv.c2s && 0 <= s.srv.c2s[c] < 0x1_0000_0000
    ensures T.WireOf(s.srv, s.tab.c2r[c]).channel.out <= Upstream(s, c)
  {
    hide T.WireOf, T.Pairs, BigEndian;
    T.PairsAt(s, c);
    Output.Streams(T.WireOf(s.srv, s.tab.c2r[c]).channel);
    var stale := T.WireOf(s.srv, s.tab.c2r[c]).stale;
    assert stale + [] <= stale + (BigEndian(4, s.srv.c2s[c]) + T.WireOf(s.srv, c).rcvd);
  }
}

/** The worker as an object updated in place. */
module SessionObjects {
  import opened Bytes
  import opened Sessions

  class ClientServer {
    var c2s: map<int, int>
    var s2c: map<int, int>
    var buf: map<int, bytes>
    var reading: set<int>
    var sessionTasks: map<int, seq<int>>
    var log: seq<Act>

    constructor ()
      ensures View() == Idle
    {
      c2s, s2c, buf, reading, sessionTasks, log := map[], map[], map[], {}, map[], [];
    }

    function View(): Worker
      reads this
    {
      Worker(c2s, s2c, buf, reading, sessionTasks, log)
    }

    method RecvSessionId(fd: int, message: bytes) returns (r: Recv)
      modifies this
      ensures (View(), r) == Sessions.RecvSessionId(old(View()), fd, message)
    {
      var whole := message;
      if fd in buf {
        whole := buf[fd] + message;
        buf := buf - {fd};
      } else {
        assert [] + message == message && buf - {fd} == buf;
      }
      if |whole| < 4 {
        buf := buf[fd := whole];
        assert buf == old(buf)[fd := whole];
        return More;
      }
      var sessionId := FromBigEndian(whole[..4]);
      c2s := c2s[fd := sessionId];
      s2c := s2c[sessionId := fd];
      return Id(whole[4..]);
    }

    method OnRead(fd: int, message: bytes)
      modifies this
      ensures View() == Message(old(View()), fd, message)
    {
      hide RunTasks, Sessions.RecvSessionId;
      if fd in reading {
        log := log + [Gave(fd, message)];
        return;
      }
      var r := RecvSessionId(fd, message);
      if r.Id? {
        RunSessionTasks(fd);
        reading := reading + {fd};
        if |r.rest| > 0 {
          log := log + [Gave(fd, r.rest)];
        }
        RecvKeeps(old(View()), fd, message);
      }
    }

    lemma RecvKeeps(w: Worker, fd: int, message: bytes)
      ensures var w1 := Sessions.RecvSessionId(w, fd, message).0;
              w1.reading == w.reading && w1.tasks == w.tasks && w1.log == w.log
    {
    }

    /** The loop over the tasks waiting for the id. */
    method RunSessionTasks(fd: int)
      modifies this
      ensures View() == old(View()).(tasks := old(sessionTasks) - {fd},
                                     log := old(log) + RunTasks(fd, TasksFor(old(sessionTasks), fd)))
    {
      if fd in sessionTasks {
        var tasks := sessionTasks[fd];
        assert log + RunTasks(fd, tasks[..0]) == log;
        for i := 0 to |tasks|
          invariant View() == old(View()).(log := old(log) + RunTasks(fd, tasks[..i]))
        {
          assert tasks[..i + 1][..i] == tasks[..i];
          log := log + [Ran(fd, tasks[i])];
        }
        assert tasks[..|tasks|] == tasks;
        sessionTasks := sessionTasks - {fd};
      } else {
        assert sessionTasks - {fd} == sessionTasks && log + RunTasks(fd, []) == log;
      }
    }

    method AddSessionTask(fd: int, task: int) returns (ran: bool)
      modifies this
      ensures View() == Sessions.AddSessionTask(old(View()), fd, task) && ran == (fd in old(c2s))
    {
      if fd !in c2s {
        sessionTasks := sessionTasks[fd := TasksFor(sessionTasks, fd) + [task]];
        return false;
      }
      log := log + [Ran(fd, task)];
      return true;
    }

    /** `removed`: whether EventManager::unwatch found the descriptor watched. */
    method Unwatch(fd: int, removed: bool) returns (gone: bool)
      modifies this
      ensures View() == (if removed then Sessions.Unwatch(old(View()), fd) else old(View())) && gone == removed
    {
      if !removed {
        return false;
      }
      if fd in c2s {
        s2c := s2c - {c2s[fd]};
        c2s := c2s - {fd};
      }
      sessionTasks := sessionTasks - {fd};
      buf := buf - {fd};
      reading := reading - {fd};
      log := log + [Left(fd)];
      return true;
    }
  }
}
