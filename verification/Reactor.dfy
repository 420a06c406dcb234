/** The reactor: callback tables, pending output, deferred closing, and the dispatch of one
    batch of epoll events (EventManager.cpp), with callbacks that call back into it. */
module Reactor {
  import opened Bytes
  import Output

  datatype EventType = OnConnect | OnRead | OnWrite | OnError | OnClose

  /** One registered callback: where it was put, and by which registration call. */
  datatype Reg = Reg(fd: int, ev: EventType, n: int)

  type Callbacks = map<EventType, Reg>

  datatype Result = Connected | Refused | GameOver | Plain

  /** Why a callback left without being called. */
  datatype Why = Replaced | Unwatched | Quietly | ConnectFailed | Closed

  datatype Entry =
    | Made(fd: int, cbs: Callbacks)
    | Fired(reg: Reg, result: Result)
    | Gone(fd: int, cbs: Callbacks, why: Why)

  /** The reactor's fields, the history of its callbacks, and the kernel's open descriptors,
      each with the number of the connection behind it. */
  datatype State = State(
    fds: map<int, Callbacks>, writeBuf: map<int, bytes>, closing: seq<int>, cur: int, curCb: Callbacks,
    next: int, log: seq<Entry>, opens: map<int, int>, conns: int)

  const Start := State(map[], map[], [], -1, map[], 0, [], map[], 0)

  // ---- What callbacks do: a finite tree of calls, each with what the callbacks it fires do ----

  datatype Script = Stop | Then(op: Op, rest: Script)

  /** What the CONNECT callback (told GAME_OVER) and the CLOSE callback do when a descriptor is closed. */
  datatype Reply = Reply(gameOver: Script, closed: Script)

  /** How ::connect answers: with an error, at once, or later by an event. */
  datatype How = Fails | AtOnce | Later

  datatype Op =
    | Watch(fd: int, evs: set<EventType>)
    | WatchOne(fd: int, ev: EventType)
    | Rewatch(fd: int)
    | Unwatch(fd: int, quiet: bool, gameOver: Script)
    | Close(fd: int, force: bool, reply: Reply)
    | Write(fd: int, data: bytes, answers: seq<Output.Answer>, reply: Reply)
    | Accept(fd: int, evs: set<EventType>)
    | Connect(fd: int, evs: set<EventType>, how: How, answered: Script)

  function Get(fds: map<int, Callbacks>, fd: int): Callbacks {
    if fd in fds then fds[fd] else map[]
  }

  function Register(fd: int, evs: set<EventType>, n: int): Callbacks {
    map ev | ev in evs :: Reg(fd, ev, n)
  }

  /** watch() for a whole descriptor; `reWatch` when it is not in the epoll set. */
  function WatchAll(s: State, fd: int, evs: set<EventType>, reWatch: bool): State {
    var cbs := Register(fd, evs, s.next);
    s.(fds := s.fds[fd := cbs], curCb := if !reWatch && fd == s.cur then cbs else s.curCb, next := s.next + 1,
       log := s.log + [Gone(fd, Get(s.fds, fd), Replaced)] + [Made(fd, cbs)])
  }

  function Only(cbs: Callbacks, ev: EventType): Callbacks {
    if ev in cbs then map[ev := cbs[ev]] else map[]
  }

  function WatchEvent(s: State, fd: int, ev: EventType): State {
    var r := Reg(fd, ev, s.next);
    s.(fds := s.fds[fd := Get(s.fds, fd)[ev := r]], curCb := if fd == s.cur then s.curCb[ev := r] else s.curCb,
       next := s.next + 1,
       log := s.log + [Gone(fd, Only(Get(s.fds, fd), ev), Replaced)] + [Made(fd, map[ev := r])])
  }

  /** auto_rewatch(): the interest update looks the descriptor up with operator[], which adds it. */
  function AutoRewatch(s: State, fd: int): State {
    s.(fds := s.fds[fd := Get(s.fds, fd)])
  }

  /** The callbacks that leave uncalled when unwatch() is called for this reason. */
  function Dropped(cbs: Callbacks, why: Why): Callbacks {
    match why
    case Closed => cbs - {OnConnect, OnClose}
    case Unwatched => cbs - {OnConnect}
    case _ => cbs
  }

  function Erase(s: State, fd: int): State {
    s.(fds := s.fds - {fd}, curCb := if fd == s.cur then map[] else s.curCb)
  }

  function Fire(s: State, r: Reg, result: Result): State {
    s.(log := s.log + [Fired(r, result)])
  }

  function UnwatchFd(s: State, fd: int, why: Why, gameOver: Script): (State, bool)
    decreases gameOver, 1
  {
    if fd !in s.fds then (s, false)
    else
      var cbs := s.fds[fd];
      var s1 := Erase(s, fd).(log := s.log + [Gone(fd, Dropped(cbs, why), why)]);
      if why == Quietly || OnConnect !in cbs then (s1, true)
      else (Run(Fire(s1, cbs[OnConnect], GameOver), gameOver), true)
  }

  function CloseFd(s: State, fd: int, force: bool, reply: Reply): (State, bool)
    decreases reply, 1
  {
    var s0 := s.(writeBuf := s.writeBuf - {fd});
    if fd in s.fds && OnClose in s.fds[fd] then
      var f := s.fds[fd][OnClose];
      var (s1, ret) := UnwatchFd(s0, fd, Closed, reply.gameOver);
      (Run(Fire(s1.(closing := s1.closing + [fd]), f, Plain), reply.closed), ret)
    else
      var (s1, ret) := UnwatchFd(s0, fd, Closed, reply.gameOver);
      (if ret || force then s1.(closing := s1.closing + [fd]) else s1, true)
  }

  /** write(): the state, and the size returned (-1 after a fatal error). */
  function WriteFd(s: State, fd: int, data: bytes, answers: seq<Output.Answer>, reply: Reply): (State, int)
    decreases reply, 2
  {
    var (c, end) := Output.Write(Output.Channel([], Output.WaitingOf(s.writeBuf, fd)), data, answers);
    match end
    case Done => (if fd in s.writeBuf then s.(writeBuf := s.writeBuf[fd := Output.Owed(c.waiting)]) else s, |c.out|)
    case Blocked => (AutoRewatch(s.(writeBuf := s.writeBuf[fd := Output.Owed(c.waiting)]), fd), |c.out|)
    case Broken => (CloseFd(s, fd, false, reply).0, -1)
    case Failed => (s, -1)
  }

  /** _finish_write_buf(): the state, and whether nothing is left to send. */
  function FinishWriteBuf(s: State, fd: int, answers: seq<Output.Answer>, reply: Reply): (State, bool) {
    if fd !in s.writeBuf then (s, true)
    else
      var (s1, size) := WriteFd(s.(writeBuf := s.writeBuf - {fd}), fd, s.writeBuf[fd], answers, reply);
      (s1, size == |s.writeBuf[fd]|)
  }

  function Exec(s: State, op: Op): State
    decreases op, 0
  {
    match op
    case Watch(fd, evs) => WatchAll(s, fd, evs, false)
    case WatchOne(fd, ev) => WatchEvent(s, fd, ev)
    case Rewatch(fd) => AutoRewatch(s, fd)
    case Unwatch(fd, quiet, gameOver) => UnwatchFd(s, fd, if quiet then Quietly else Unwatched, gameOver).0
    case Close(fd, force, reply) => CloseFd(s, fd, force, reply).0
    case Write(fd, data, answers, reply) => WriteFd(s, fd, data, answers, reply).0
    case Accept(fd, evs) =>
      // the kernel hands out no number that is open
      if fd in s.opens then s else WatchAll(OpenFd(s, fd), fd, evs, false)
    case Connect(fd, evs, how, answered) =>
      if fd in s.opens then s
      else
        var s1 := OpenFd(s, fd);
        match how
        case Fails => Run(UnwatchFd(s1, fd, Quietly, answered).0, answered)
        case AtOnce =>
          var s2 := Run(s1, answered);
          if evs <= {OnConnect} then s2 else WatchAll(s2, fd, evs - {OnConnect}, true)
        case Later => WatchAll(s1, fd, evs, true)
  }

  function OpenFd(s: State, fd: int): State {
    s.(opens := s.opens[fd := s.conns], conns := s.conns + 1)
  }

  /** What a callback does. */
  function Run(s: State, script: Script): State
    decreases script, 0
  {
    match script
    case Stop => s
    case Then(op, rest) => Run(Exec(s, op), rest)
  }

  // ---- One batch of events ----

  /** What epoll reports of a descriptor, the connection it was reported for, the socket's
      error state, and what the callbacks this event fires do. */
  datatype Event = Event(
    fd: int, conn: int, input: bool, output: bool, error: bool, hangup: bool, peerClosed: bool, sockError: bool,
    answers: seq<Output.Answer>, flush: Reply, connected: Script, read: Script, written: Script, failed: Script,
    hung: Reply)

  function TakeConnect(s: State): State
    requires s.cur in s.fds
  {
    s.(fds := s.fds[s.cur := s.fds[s.cur] - {OnConnect}], curCb := s.curCb - {OnConnect})
  }

  function ReadStage(s: State, e: Event): State {
    if e.input && OnRead in s.curCb then Run(Fire(s, s.curCb[OnRead], Plain), e.read) else s
  }

  function WriteStage(s: State, e: Event): State {
    if !e.output then s
    else
      var (s1, done) := FinishWriteBuf(s, s.cur, e.answers, e.flush);
      if !done then s1
      else if OnWrite in s1.curCb then Run(Fire(s1, s1.curCb[OnWrite], Plain), e.written)
      else AutoRewatch(s1, s1.cur)
  }

  /** The state, and whether the event now counts as a hang-up. */
  function ErrorStage(s: State, e: Event): (State, bool) {
    var hup := e.hangup || e.peerClosed;
    if !e.error then (s, hup)
    else if OnError in s.curCb then (Run(Fire(s, s.curCb[OnError], Plain), e.failed), hup)
    else (s, true)
  }

  function HangupStage(s: State, e: Event): State {
    var (s1, ok) := UnwatchFd(s, s.cur, Closed, e.hung.gameOver);
    if !ok then s1
    else if OnClose in s.curCb then
      Run(Fire(s1.(closing := s1.closing + [s1.cur]), s.curCb[OnClose], Plain), e.hung.closed)
    else s1.(closing := s1.closing + [s1.cur])
  }

  function Stages(s: State, e: Event): State {
    var (s1, hup) := ErrorStage(WriteStage(ReadStage(s, e), e), e);
    if hup then HangupStage(s1, e) else s1
  }

  function Dispatch(s: State, e: Event): State {
    var s0 := s.(cur := e.fd);
    if e.fd !in s.fds then s0
    else
      var s1 := s0.(curCb := s.fds[e.fd]);
      if OnConnect !in s1.curCb then Stages(s1, e)
      else
        var f, s2 := s1.curCb[OnConnect], TakeConnect(s1);
        if !e.error && !e.hangup && e.output && !e.sockError then
          Stages(Run(Fire(s2, f, Connected), e.connected), e)
        else
          Run(Fire(UnwatchFd(s2, e.fd, ConnectFailed, e.connected).0, f, Refused), e.connected)
  }

  function DispatchAll(s: State, events: seq<Event>): State {
    if events == [] then s else Dispatch(DispatchAll(s, events[..|events| - 1]), events[|events| - 1])
  }

  /** The end of a batch: the queued descriptors are closed in the kernel. */
  function Flush(s: State): State {
    s.(cur := -1, opens := s.opens - (set fd | fd in s.closing), closing := [])
  }

  function HandleEvents(s: State, events: seq<Event>): State { Flush(DispatchAll(s, events)) }

  // ---- The history of callbacks ----

  predicate Once(ev: EventType) { ev == OnConnect || ev == OnClose }

  predicate In(r: Reg, cbs: Callbacks) { r.ev in cbs && cbs[r.ev] == r }

  predicate Makes(e: Entry, r: Reg) { e.Made? && In(r, e.cbs) }

  /** The entry after which the callback must never be heard of again. */
  predicate Ends(e: Entry, r: Reg) {
    match e
    case Made(_, _) => false
    case Fired(f, _) => f == r && Once(r.ev)
    case Gone(_, cbs, _) => In(r, cbs)
  }

  predicate Calls(e: Entry, r: Reg) { e.Fired? && e.reg == r }

  predicate MadeIn(log: seq<Entry>, r: Reg) {
    log != [] && (Makes(log[|log| - 1], r) || MadeIn(log[..|log| - 1], r))
  }

  predicate EndedIn(log: seq<Entry>, r: Reg) {
    log != [] && (Ends(log[|log| - 1], r) || EndedIn(log[..|log| - 1], r))
  }

  /** A reason for which a callback may leave uncalled: CONNECT only by being replaced or quietly
      unwatched; CLOSE not when its descriptor is closed or hangs up. */
  predicate MayDrop(ev: EventType, why: Why) {
    match why
    case Replaced => true
    case Quietly => true
    case Unwatched => ev != OnConnect
    case ConnectFailed => ev != OnConnect
    case Closed => !Once(ev)
  }

  ghost predicate Follows(log: seq<Entry>, e: Entry) {
    match e
    case Made(_, cbs) => forall r :: In(r, cbs) ==> !MadeIn(log, r)
    case Fired(r, result) => MadeIn(log, r) && !EndedIn(log, r) && (r.ev == OnConnect <==> result != Plain)
    case Gone(_, cbs, why) => forall r :: In(r, cbs) ==> MadeIn(log, r) && !EndedIn(log, r) && MayDrop(r.ev, why)
  }

  ghost predicate Orderly(log: seq<Entry>) {
    log == [] || (Orderly(log[..|log| - 1]) && Follows(log[..|log| - 1], log[|log| - 1]))
  }

  predicate Live(fds: map<int, Callbacks>, r: Reg) { r.fd in fds && In(r, fds[r.fd]) }

  predicate Slots(fd: int, cbs: Callbacks) { forall ev :: ev in cbs ==> cbs[ev].fd == fd && cbs[ev].ev == ev }

  /** Every callback ever registered is in the table, or in a caller's hand about to be called,
      or ended; never two of these. */
  ghost predicate Accounted(fds: map<int, Callbacks>, log: seq<Entry>, next: int, held: set<Reg>) {
    && Orderly(log)
    && (forall fd :: fd in fds ==> Slots(fd, fds[fd]))
    && (forall r {:trigger MadeIn(log, r)} :: MadeIn(log, r) ==> r.n < next)
    && (forall r {:trigger MadeIn(log, r)} {:trigger EndedIn(log, r)} {:trigger Live(fds, r)} {:trigger r in held} ::
          && (MadeIn(log, r) <==> Live(fds, r) || EndedIn(log, r) || r in held)
          && !(Live(fds, r) && EndedIn(log, r)) && !(Live(fds, r) && r in held) && !(EndedIn(log, r) && r in held))
  }

  function Regs(cbs: Callbacks): set<Reg> { set ev | ev in cbs :: cbs[ev] }

  lemma LogStep(log: seq<Entry>, e: Entry)
    ensures forall r {:trigger MadeIn(log + [e], r)} :: MadeIn(log + [e], r) <==> Makes(e, r) || MadeIn(log, r)
    ensures forall r {:trigger EndedIn(log + [e], r)} :: EndedIn(log + [e], r) <==> Ends(e, r) || EndedIn(log, r)
    ensures Orderly(log + [e]) <==> Orderly(log) && Follows(log, e)
  {
    assert (log + [e])[..|log|] == log;
  }

  lemma RegsExact(fd: int, cbs: Callbacks)
    requires Slots(fd, cbs)
    ensures forall r :: r in Regs(cbs) <==> In(r, cbs)
  {
  }

  // ---- The moves the account is made of ----

  lemma EraseAccount(fds: map<int, Callbacks>, log: seq<Entry>, next: int, held: set<Reg>, fd: int)
    requires Accounted(fds, log, next, held)
    ensures Accounted(fds - {fd}, log, next, held + Regs(Get(fds, fd)))
  {
    hide Orderly, MadeIn, EndedIn, Regs;
    RegsExact(fd, Get(fds, fd));
    forall r ensures Live(fds, r) <==> Live(fds - {fd}, r) || r in Regs(Get(fds, fd)) {
    }
  }

  lemma TakeAccount(fds: map<int, Callbacks>, log: seq<Entry>, next: int, held: set<Reg>, fd: int, ev: EventType)
    requires Accounted(fds, log, next, held) && fd in fds && ev in fds[fd]
    ensures Accounted(fds[fd := fds[fd] - {ev}], log, next, held + {fds[fd][ev]})
  {
    hide Orderly, MadeIn, EndedIn;
  }

  lemma DropAccount(fds: map<int, Callbacks>, log: seq<Entry>, next: int, held: set<Reg>, fd: int, cbs: Callbacks,
      why: Why)
    requires Accounted(fds, log, next, held) && Slots(fd, cbs) && Regs(cbs) <= held
    requires forall ev :: ev in cbs ==> MayDrop(ev, why)
    ensures Accounted(fds, log + [Gone(fd, cbs, why)], next, held - Regs(cbs))
  {
    hide Orderly, MadeIn, EndedIn, Regs;
    RegsExact(fd, cbs);
    LogStep(log, Gone(fd, cbs, why));
  }

  lemma FireAccount(fds: map<int, Callbacks>, log: seq<Entry>, next: int, held: set<Reg>, r: Reg, result: Result)
    requires Accounted(fds, log, next, held) && (r.ev == OnConnect <==> result != Plain)
    requires if Once(r.ev) then r in held else Live(fds, r)
    ensures Accounted(fds, log + [Fired(r, result)], next, if Once(r.ev) then held - {r} else held)
  {
    hide Orderly, MadeIn, EndedIn;
    LogStep(log, Fired(r, result));
  }

  lemma MakeAccount(fds: map<int, Callbacks>, log: seq<Entry>, next: int, held: set<Reg>, fd: int, cbs: Callbacks)
    requires Accounted(fds, log, next, held) && Slots(fd, cbs)
    requires forall ev :: ev in cbs ==> cbs[ev].n == next && ev !in Get(fds, fd)
    ensures Accounted(fds[fd := Get(fds, fd) + cbs], log + [Made(fd, cbs)], next + 1, held)
  {
    hide Orderly, MadeIn, EndedIn;
    LogStep(log, Made(fd, cbs));
    forall r ensures Live(fds[fd := Get(fds, fd) + cbs], r) <==> Live(fds, r) || In(r, cbs) {
    }
    assert forall r :: In(r, cbs) ==> !MadeIn(log, r);
  }

  lemma AddAccount(fds: map<int, Callbacks>, log: seq<Entry>, next: int, held: set<Reg>, fd: int)
    requires Accounted(fds, log, next, held)
    ensures Accounted(fds[fd := Get(fds, fd)], log, next, held)
  {
    hide Orderly, MadeIn, EndedIn;
    forall r ensures Live(fds[fd := Get(fds, fd)], r) <==> Live(fds, r) {
    }
  }

  // ---- Every call keeps the account, whatever the callbacks do ----

  ghost predicate Acc(s: State, held: set<Reg>) { Accounted(s.fds, s.log, s.next, held) }

  /** While an event is handled, _current_cb is the entry of _current_fd. */
  predicate InStep(s: State) { s.cur >= 0 ==> s.cur in s.opens && s.curCb == Get(s.fds, s.cur) }

  /** What a call made by a callback never undoes. */
  predicate Grew(s: State, s': State) {
    && s.log <= s'.log && s'.cur == s.cur
    && (forall fd :: fd in s.opens ==> fd in s'.opens && s'.opens[fd] == s.opens[fd])
  }

  ghost predicate Kept(s: State, s': State, held: set<Reg>) { Acc(s', held) && InStep(s') && Grew(s, s') }

  lemma RegisterSlots(fd: int, evs: set<EventType>, n: int)
    ensures Slots(fd, Register(fd, evs, n))
    ensures forall ev :: ev in Register(fd, evs, n) ==> Register(fd, evs, n)[ev].n == n
  {
  }

  lemma WatchAllKeeps(s: State, fd: int, evs: set<EventType>, reWatch: bool, held: set<Reg>)
    requires Acc(s, held) && InStep(s) && (reWatch && s.cur >= 0 ==> fd != s.cur)
    ensures Kept(s, WatchAll(s, fd, evs, reWatch), held)
  {
    hide Accounted, Regs, Register, Slots;
    var was, cbs := Get(s.fds, fd), Register(fd, evs, s.next);
    EraseAccount(s.fds, s.log, s.next, held, fd);
    AccountedSlots(s.fds, s.log, s.next, held, fd);
    DropAccount(s.fds - {fd}, s.log, s.next, held + Regs(was), fd, was, Replaced);
    HeldBack(s.fds, s.log, s.next, held, fd);
    RegisterSlots(fd, evs, s.next);
    var log := s.log + [Gone(fd, was, Replaced)];
    MakeAccount(s.fds - {fd}, log, s.next, held, fd, cbs);
    Reset(s.fds, fd, cbs);
  }

  lemma Reset(fds: map<int, Callbacks>, fd: int, cbs: Callbacks)
    ensures (fds - {fd})[fd := map[] + cbs] == fds[fd := cbs]
  {
    assert map[] + cbs == cbs;
  }

  lemma AccountedSlots(fds: map<int, Callbacks>, log: seq<Entry>, next: int, held: set<Reg>, fd: int)
    requires Accounted(fds, log, next, held)
    ensures Slots(fd, Get(fds, fd))
  {
  }

  lemma HeldBack(fds: map<int, Callbacks>, log: seq<Entry>, next: int, held: set<Reg>, fd: int)
    requires Accounted(fds, log, next, held)
    ensures held + Regs(Get(fds, fd)) - Regs(Get(fds, fd)) == held
  {
    hide Orderly, MadeIn, EndedIn, Regs;
    RegsExact(fd, Get(fds, fd));
    forall r | r in Regs(Get(fds, fd)) ensures r !in held {
      NotHeld(fds, log, next, held, r);
    }
  }

  lemma WatchEventKeeps(s: State, fd: int, ev: EventType, held: set<Reg>)
    requires Acc(s, held) && InStep(s)
    ensures Kept(s, WatchEvent(s, fd, ev), held)
  {
    hide Accounted, Regs;
    var was, r := Get(s.fds, fd), Reg(fd, ev, s.next);
    var gone := Only(was, ev);
    AccountedSlots(s.fds, s.log, s.next, held, fd);
    var fds1, held1 := s.fds, held;
    if ev in was {
      TakeAccount(s.fds, s.log, s.next, held, fd, ev);
      fds1, held1 := s.fds[fd := was - {ev}], held + {was[ev]};
      OnlyReg(fd, was, ev);
      NotHeld(s.fds, s.log, s.next, held, was[ev]);
    } else {
      NoRegs();
    }
    assert held1 - Regs(gone) == held;
    DropAccount(fds1, s.log, s.next, held1, fd, gone, Replaced);
    MakeAccount(fds1, s.log + [Gone(fd, gone, Replaced)], s.next, held, fd, map[ev := r]);
    assert Get(fds1, fd) + map[ev := r] == was[ev := r];
    assert fds1[fd := was[ev := r]] == s.fds[fd := was[ev := r]];
  }

  lemma OnlyReg(fd: int, cbs: Callbacks, ev: EventType)
    requires ev in cbs && Slots(fd, cbs)
    ensures Regs(Only(cbs, ev)) == {cbs[ev]} && Slots(fd, Only(cbs, ev))
  {
    assert ev in Only(cbs, ev);
    assert cbs[ev] in Regs(Only(cbs, ev));
  }

  lemma NoRegs()
    ensures Regs(map[]) == {}
  {
  }

  lemma NotHeld(fds: map<int, Callbacks>, log: seq<Entry>, next: int, held: set<Reg>, r: Reg)
    requires Accounted(fds, log, next, held) && Live(fds, r)
    ensures r !in held
  {
  }

  lemma AutoRewatchKeeps(s: State, fd: int, held: set<Reg>)
    requires Acc(s, held) && InStep(s)
    ensures Kept(s, AutoRewatch(s, fd), held)
  {
    hide Accounted;
    AddAccount(s.fds, s.log, s.next, held, fd);
  }

  /** The callbacks a caller of unwatch() holds on to: CLOSE, when it means to close. */
  function Retained(cbs: Callbacks, why: Why): set<Reg> {
    if why == Closed then Regs(Only(cbs, OnClose)) else {}
  }

  /** The entry is erased and accounted for, up to the CONNECT callback about to be told GAME_OVER. */
  lemma EraseKeeps(s: State, fd: int, why: Why, held: set<Reg>)
    requires Acc(s, held) && InStep(s) && fd in s.fds && why != Replaced
          && (why == ConnectFailed ==> OnConnect !in s.fds[fd])
    ensures var cbs := s.fds[fd];
            var s1 := Erase(s, fd).(log := s.log + [Gone(fd, Dropped(cbs, why), why)]);
            && Kept(s, s1, held + Retained(cbs, why) + if why == Quietly then {} else Regs(Only(cbs, OnConnect)))
            && Slots(fd, cbs) && Retained(cbs, why) !! held
            && (OnConnect in cbs ==> cbs[OnConnect] !in held && cbs[OnConnect] !in Retained(cbs, why))
  {
    hide Accounted, Regs, Slots;
    var cbs := s.fds[fd];
    EraseAccount(s.fds, s.log, s.next, held, fd);
    AccountedSlots(s.fds, s.log, s.next, held, fd);
    DroppedSlots(fd, cbs, why);
    DropAccount(s.fds - {fd}, s.log, s.next, held + Regs(cbs), fd, Dropped(cbs, why), why);
    DroppedRegs(s, fd, why, held);
  }

  lemma DroppedSlots(fd: int, cbs: Callbacks, why: Why)
    requires Slots(fd, cbs) && why != Replaced && (why == ConnectFailed ==> OnConnect !in cbs)
    ensures Slots(fd, Dropped(cbs, why)) && Regs(Dropped(cbs, why)) <= Regs(cbs)
    ensures forall ev :: ev in Dropped(cbs, why) ==> MayDrop(ev, why)
  {
  }

  lemma DroppedRegs(s: State, fd: int, why: Why, held: set<Reg>)
    requires Acc(s, held) && fd in s.fds && why != Replaced && (why == ConnectFailed ==> OnConnect !in s.fds[fd])
    ensures var cbs := s.fds[fd];
            var connect := if why == Quietly then {} else Regs(Only(cbs, OnConnect));
            && held + Regs(cbs) - Regs(Dropped(cbs, why)) == held + Retained(cbs, why) + connect
            && Retained(cbs, why) !! held
            && (OnConnect in cbs ==> cbs[OnConnect] !in held && cbs[OnConnect] !in Retained(cbs, why))
  {
    hide Orderly, MadeIn, EndedIn, Regs;
    var cbs := s.fds[fd];
    RegsExact(fd, cbs);
    RegsExact(fd, Dropped(cbs, why));
    RegsExact(fd, Only(cbs, OnConnect));
    RegsExact(fd, Only(cbs, OnClose));
    forall r | In(r, cbs) ensures r !in held {
      NotHeld(s.fds, s.log, s.next, held, r);
    }
  }

  lemma FireKeeps(s: State, r: Reg, result: Result, held: set<Reg>)
    requires Acc(s, held) && InStep(s) && (r.ev == OnConnect <==> result != Plain)
    requires if Once(r.ev) then r in held else Live(s.fds, r)
    ensures Kept(s, Fire(s, r, result), if Once(r.ev) then held - {r} else held)
  {
    hide Accounted;
    FireAccount(s.fds, s.log, s.next, held, r, result);
  }

  lemma GrewTwice(a: State, b: State, c: State)
    requires Grew(a, b) && Grew(b, c)
    ensures Grew(a, c)
  {
  }

  lemma {:induction false} UnwatchKeeps(s: State, fd: int, why: Why, gameOver: Script, held: set<Reg>)
    requires Acc(s, held) && InStep(s) && why != Replaced
    requires why == ConnectFailed ==> OnConnect !in Get(s.fds, fd)
    ensures var (s', ok) := UnwatchFd(s, fd, why, gameOver);
            && ok == (fd in s.fds)
            && Kept(s, s', held + Retained(Get(s.fds, fd), why))
            && Retained(Get(s.fds, fd), why) !! held
    decreases gameOver, 1
  {
    hide Acc, Regs, Dropped, InStep;
    if fd in s.fds {
      var cbs := s.fds[fd];
      var held1 := held + Retained(cbs, why);
      EraseKeeps(s, fd, why, held);
      var s1 := Erase(s, fd).(log := s.log + [Gone(fd, Dropped(cbs, why), why)]);
      if why != Quietly && OnConnect in cbs {
        var r := cbs[OnConnect];
        OnlyReg(fd, cbs, OnConnect);
        IsOnce(fd, cbs, OnConnect);
        assert held1 + {r} - {r} == held1;
        FireKeeps(s1, r, GameOver, held1 + {r});
        var s2 := Fire(s1, r, GameOver);
        RunKeeps(s2, gameOver, held1);
        GrewTwice(s, s1, s2);
        GrewTwice(s, s2, Run(s2, gameOver));
      } else {
        NoRegs();
        assert held1 + {} == held1;
      }
    } else {
      NotWatched(why);
      assert held + {} == held;
      assert Kept(s, s, held);
    }
  }

  lemma IsOnce(fd: int, cbs: Callbacks, ev: EventType)
    requires Slots(fd, cbs) && ev in cbs
    ensures Once(cbs[ev].ev) <==> Once(ev)
    ensures cbs[ev].ev == ev
  {
  }

  lemma NotWatched(why: Why)
    ensures Retained(map[], why) == {}
  {
  }

  lemma {:induction false} CloseKeeps(s: State, fd: int, force: bool, reply: Reply, held: set<Reg>)
    requires Acc(s, held) && InStep(s)
    ensures Kept(s, CloseFd(s, fd, force, reply).0, held)
    decreases reply, 1
  {
    hide Acc, Regs, InStep, UnwatchFd, Once;
    var cbs := Get(s.fds, fd);
    var s0 := s.(writeBuf := s.writeBuf - {fd});
    SameAccount(s, s0, held);
    UnwatchKeeps(s0, fd, Closed, reply.gameOver, held);
    var (s1, ret) := UnwatchFd(s0, fd, Closed, reply.gameOver);
    var s2 := s1.(closing := s1.closing + [fd]);
    SameAccount(s1, s2, held + Retained(cbs, Closed));
    if OnClose in cbs {
      var f := cbs[OnClose];
      CloseAccount(s, fd, held);
      FireKeeps(s2, f, Plain, held + {f});
      assert held + {f} - {f} == held;
      var s3 := Fire(s2, f, Plain);
      RunKeeps(s3, reply.closed, held);
      GrewTwice(s, s0, s1);
      GrewTwice(s, s2, s3);
      GrewTwice(s, s3, Run(s3, reply.closed));
    } else {
      NoRegs();
      assert held + {} == held;
      GrewTwice(s, s0, s1);
    }
  }

  lemma CloseAccount(s: State, fd: int, held: set<Reg>)
    requires Acc(s, held) && OnClose in Get(s.fds, fd)
    ensures var f := s.fds[fd][OnClose];
            Retained(s.fds[fd], Closed) == {f} && f !in held && f.ev == OnClose && Once(f.ev)
  {
    hide Accounted, Regs;
    AccountedSlots(s.fds, s.log, s.next, held, fd);
    OnlyReg(fd, s.fds[fd], OnClose);
    NotHeld(s.fds, s.log, s.next, held, s.fds[fd][OnClose]);
  }

  /** Pending output, the closing queue and the kernel's table take no part in the account. */
  lemma SameAccount(s: State, s': State, held: set<Reg>)
    requires s' == s.(writeBuf := s'.writeBuf, closing := s'.closing)
    ensures Acc(s, held) ==> Acc(s', held)
    ensures InStep(s) ==> InStep(s')
    ensures Grew(s, s')
  {
    hide Accounted;
  }

  lemma {:induction false} WriteKeeps(s: State, fd: int, data: bytes, answers: seq<Output.Answer>, reply: Reply,
      held: set<Reg>)
    requires Acc(s, held) && InStep(s)
    ensures Kept(s, WriteFd(s, fd, data, answers, reply).0, held)
    decreases reply, 2
  {
    hide Acc, InStep, CloseFd, Output.Write, AutoRewatch;
    var (c, end) := Output.Write(Output.Channel([], Output.WaitingOf(s.writeBuf, fd)), data, answers);
    var s1 := s.(writeBuf := s.writeBuf[fd := Output.Owed(c.waiting)]);
    SameAccount(s, s1, held);
    SameAccount(s, s, held);
    match end {
      case Blocked =>
        AutoRewatchKeeps(s1, fd, held);
        GrewTwice(s, s1, AutoRewatch(s1, fd));
      case Broken => CloseKeeps(s, fd, false, reply, held);
      case _ =>
    }
  }

  lemma {:induction false} RunKeeps(s: State, script: Script, held: set<Reg>)
    requires Acc(s, held) && InStep(s)
    ensures Kept(s, Run(s, script), held)
    decreases script, 0
  {
    hide Acc, InStep, Exec;
    match script {
      case Stop => SameAccount(s, s, held);
      case Then(op, rest) =>
        ExecKeeps(s, op, held);
        RunKeeps(Exec(s, op), rest, held);
        GrewTwice(s, Exec(s, op), Run(Exec(s, op), rest));
    }
  }

  lemma OpenKeeps(s: State, fd: int, held: set<Reg>)
    requires Acc(s, held) && InStep(s) && fd !in s.opens
    ensures Kept(s, OpenFd(s, fd), held)
  {
    hide Accounted;
  }

  lemma {:induction false} ExecKeeps(s: State, op: Op, held: set<Reg>)
    requires Acc(s, held) && InStep(s)
    ensures Kept(s, Exec(s, op), held)
    decreases op, 0
  {
    hide Acc, WatchAll, WatchEvent, AutoRewatch, UnwatchFd, CloseFd, WriteFd, Regs;
    match op {
      case Watch(fd, evs) => WatchAllKeeps(s, fd, evs, false, held);
      case WatchOne(fd, ev) => WatchEventKeeps(s, fd, ev, held);
      case Rewatch(fd) => AutoRewatchKeeps(s, fd, held);
      case Unwatch(fd, quiet, gameOver) => QuietKeeps(s, fd, if quiet then Quietly else Unwatched, gameOver, held);
      case Close(fd, force, reply) => CloseKeeps(s, fd, force, reply, held);
      case Write(fd, data, answers, reply) => WriteKeeps(s, fd, data, answers, reply, held);
      case Accept(fd, evs) =>
        if fd !in s.opens {
          OpenKeeps(s, fd, held);
          WatchAllKeeps(OpenFd(s, fd), fd, evs, false, held);
          GrewTwice(s, OpenFd(s, fd), WatchAll(OpenFd(s, fd), fd, evs, false));
        } else {
          SameAccount(s, s, held);
        }
      case Connect(fd, evs, how, answered) =>
        if fd !in s.opens {
          ConnectKeeps(s, fd, evs, how, answered, held);
        } else {
          SameAccount(s, s, held);
        }
    }
  }

  lemma {:induction false} QuietKeeps(s: State, fd: int, why: Why, gameOver: Script, held: set<Reg>)
    requires Acc(s, held) && InStep(s) && (why == Quietly || why == Unwatched)
    ensures Kept(s, UnwatchFd(s, fd, why, gameOver).0, held)
    decreases gameOver, 2
  {
    hide Acc, InStep, UnwatchFd;
    UnwatchKeeps(s, fd, why, gameOver, held);
    assert held + {} == held;
  }

  lemma {:induction false} ConnectKeeps(s: State, fd: int, evs: set<EventType>, how: How, answered: Script,
      held: set<Reg>)
    requires Acc(s, held) && InStep(s) && fd !in s.opens
    ensures Kept(s, Exec(s, Connect(fd, evs, how, answered)), held)
    decreases answered, 3
  {
    hide Acc, WatchAll, UnwatchFd, Run;
    var s1 := OpenFd(s, fd);
    OpenKeeps(s, fd, held);
    match how {
      case Fails =>
        var s2 := UnwatchFd(s1, fd, Quietly, answered).0;
        QuietKeeps(s1, fd, Quietly, answered, held);
        RunKeeps(s2, answered, held);
        GrewTwice(s, s1, s2);
        GrewTwice(s, s2, Run(s2, answered));
      case AtOnce =>
        var s2 := Run(s1, answered);
        RunKeeps(s1, answered, held);
        GrewTwice(s, s1, s2);
        if !(evs <= {OnConnect}) {
          WatchAllKeeps(s2, fd, evs - {OnConnect}, true, held);
          GrewTwice(s, s2, WatchAll(s2, fd, evs - {OnConnect}, true));
        }
      case Later =>
        WatchAllKeeps(s1, fd, evs, true, held);
        GrewTwice(s, s1, WatchAll(s1, fd, evs, true));
    }
  }

  // ---- Dispatch ----

  lemma ReadKeeps(s: State, e: Event)
    requires Acc(s, {}) && InStep(s) && s.cur >= 0
    ensures Kept(s, ReadStage(s, e), {})
  {
    hide Acc, Run;
    SameAccount(s, s, {});
    if e.input && OnRead in s.curCb {
      CurrentLive(s, OnRead);
      FireRunKeeps(s, s.curCb[OnRead], Plain, e.read, {});
    }
  }

  /** A callback found in _current_cb is the live one of the current descriptor. */
  lemma CurrentLive(s: State, ev: EventType)
    requires Acc(s, {}) && InStep(s) && s.cur >= 0 && ev in s.curCb
    ensures Live(s.fds, s.curCb[ev]) && s.curCb[ev] == Reg(s.cur, ev, s.curCb[ev].n)
  {
    hide Accounted, Slots;
    AccountedSlots(s.fds, s.log, s.next, {}, s.cur);
    SlotHere(s.cur, s.curCb, ev);
  }

  lemma SlotHere(fd: int, cbs: Callbacks, ev: EventType)
    requires Slots(fd, cbs) && ev in cbs
    ensures cbs[ev].fd == fd && cbs[ev].ev == ev
  {
  }

  lemma FireRunKeeps(s: State, r: Reg, result: Result, script: Script, held: set<Reg>)
    requires InStep(s) && (r.ev == OnConnect <==> result != Plain)
    requires Once(r.ev) ==> r !in held && Acc(s, held + {r})
    requires !Once(r.ev) ==> Live(s.fds, r) && Acc(s, held)
    ensures Kept(s, Run(Fire(s, r, result), script), held)
  {
    hide Acc, InStep, Run;
    assert held + {r} - {r} == held || r in held;
    FireKeeps(s, r, result, if Once(r.ev) then held + {r} else held);
    RunKeeps(Fire(s, r, result), script, held);
    GrewTwice(s, Fire(s, r, result), Run(Fire(s, r, result), script));
  }

  lemma WriteStageKeeps(s: State, e: Event)
    requires Acc(s, {}) && InStep(s) && s.cur >= 0
    ensures Kept(s, WriteStage(s, e), {})
  {
    hide Acc, Run, WriteFd, AutoRewatch;
    SameAccount(s, s, {});
    if e.output {
      var (s1, done) := FinishWriteBuf(s, s.cur, e.answers, e.flush);
      FinishKeeps(s, e);
      if done && OnWrite in s1.curCb {
        CurrentLive(s1, OnWrite);
        FireRunKeeps(s1, s1.curCb[OnWrite], Plain, e.written, {});
        GrewTwice(s, s1, WriteStage(s, e));
      } else if done {
        AutoRewatchKeeps(s1, s1.cur, {});
        GrewTwice(s, s1, WriteStage(s, e));
      }
    }
  }

  lemma FinishKeeps(s: State, e: Event)
    requires Acc(s, {}) && InStep(s)
    ensures Kept(s, FinishWriteBuf(s, s.cur, e.answers, e.flush).0, {})
  {
    hide Acc, InStep, WriteFd;
    SameAccount(s, s, {});
    if s.cur in s.writeBuf {
      var s0 := s.(writeBuf := s.writeBuf - {s.cur});
      SameAccount(s, s0, {});
      WriteKeeps(s0, s.cur, s.writeBuf[s.cur], e.answers, e.flush, {});
      GrewTwice(s, s0, WriteFd(s0, s.cur, s.writeBuf[s.cur], e.answers, e.flush).0);
    }
  }

  lemma ErrorKeeps(s: State, e: Event)
    requires Acc(s, {}) && InStep(s) && s.cur >= 0
    ensures Kept(s, ErrorStage(s, e).0, {})
  {
    hide Acc, Run;
    SameAccount(s, s, {});
    if e.error && OnError in s.curCb {
      CurrentLive(s, OnError);
      FireRunKeeps(s, s.curCb[OnError], Plain, e.failed, {});
    }
  }

  lemma HangupKeeps(s: State, e: Event)
    requires Acc(s, {}) && InStep(s) && s.cur >= 0
    ensures Kept(s, HangupStage(s, e), {})
  {
    hide Acc, Run, UnwatchFd, Regs, Once;
    UnwatchKeeps(s, s.cur, Closed, e.hung.gameOver, {});
    var (s1, ok) := UnwatchFd(s, s.cur, Closed, e.hung.gameOver);
    var s2 := s1.(closing := s1.closing + [s.cur]);
    var held := {} + Retained(Get(s.fds, s.cur), Closed);
    SameAccount(s1, s2, held);
    GrewTwice(s, s1, s2);
    if OnClose in s.curCb {
      CloseAccount(s, s.cur, {});
      var f := s.curCb[OnClose];
      assert held == {f} == {} + {f};
      FireRunKeeps(s2, f, Plain, e.hung.closed, {});
      GrewTwice(s, s2, Run(Fire(s2, f, Plain), e.hung.closed));
    } else {
      NoRegs();
      assert held == {};
    }
  }

  lemma StagesKeep(s: State, e: Event)
    requires Acc(s, {}) && InStep(s) && s.cur >= 0
    ensures Kept(s, Stages(s, e), {})
  {
    hide Acc, InStep, ReadStage, WriteStage, ErrorStage, HangupStage;
    var a := ReadStage(s, e);
    ReadKeeps(s, e);
    var b := WriteStage(a, e);
    WriteStageKeeps(a, e);
    var (c, hup) := ErrorStage(b, e);
    ErrorKeeps(b, e);
    GrewTwice(s, a, b);
    GrewTwice(s, b, c);
    if hup {
      HangupKeeps(c, e);
      GrewTwice(s, c, HangupStage(c, e));
    }
  }

  lemma TakeConnectKeeps(s: State)
    requires Acc(s, {}) && InStep(s) && s.cur >= 0 && OnConnect in s.curCb
    ensures var r := s.curCb[OnConnect];
            r.ev == OnConnect && Once(r.ev) && Kept(s, TakeConnect(s), {} + {r})
  {
    hide Accounted;
    CurrentLive(s, OnConnect);
    TakeAccount(s.fds, s.log, s.next, {}, s.cur, OnConnect);
  }

  lemma DispatchKeeps(s: State, e: Event)
    requires Acc(s, {}) && e.fd >= 0 && e.fd in s.opens
    ensures Acc(Dispatch(s, e), {}) && Grew(s.(cur := e.fd), Dispatch(s, e))
  {
    hide Acc, Run, UnwatchFd, Stages, TakeConnect;
    var s0 := s.(cur := e.fd);
    CursorFree(s, s0);
    if e.fd in s.fds {
      var s1 := s0.(curCb := s.fds[e.fd]);
      CursorFree(s, s1);
      if OnConnect !in s1.curCb {
        StagesKeep(s1, e);
      } else {
        var f, s2 := s1.curCb[OnConnect], TakeConnect(s1);
        TakeConnectKeeps(s1);
        if !e.error && !e.hangup && e.output && !e.sockError {
          FireRunKeeps(s2, f, Connected, e.connected, {});
          var s3 := Run(Fire(s2, f, Connected), e.connected);
          StagesKeep(s3, e);
          GrewTwice(s1, s2, s3);
          GrewTwice(s1, s3, Stages(s3, e));
        } else {
          NoConnect(s1);
          assert {} + {f} == {f};
          UnwatchKeeps(s2, e.fd, ConnectFailed, e.connected, {f});
          var s3 := UnwatchFd(s2, e.fd, ConnectFailed, e.connected).0;
          assert {f} + {} == {} + {f};
          FireRunKeeps(s3, f, Refused, e.connected, {});
          GrewTwice(s1, s2, s3);
          GrewTwice(s1, s3, Run(Fire(s3, f, Refused), e.connected));
        }
      }
    }
  }

  lemma NoConnect(s: State)
    requires s.cur in s.fds
    ensures OnConnect !in Get(TakeConnect(s).fds, s.cur)
  {
  }

  lemma CursorFree(s: State, s': State)
    requires s' == s.(cur := s'.cur, curCb := s'.curCb)
    ensures Acc(s, {}) ==> Acc(s', {})
    ensures s.log <= s'.log && s.opens == s'.opens
  {
    hide Accounted;
  }

  // ---- Whole runs ----

  /** A run is batches of events, and calls made between batches. */
  datatype Step = Batch(events: seq<Event>) | Outside(script: Script)

  function Take(s: State, step: Step): State {
    match step
    case Batch(events) => HandleEvents(s, events)
    case Outside(script) => Run(s, script)
  }

  function RunSteps(steps: seq<Step>): State {
    if steps == [] then Start else Take(RunSteps(steps[..|steps| - 1]), steps[|steps| - 1])
  }

  /** epoll reports only open descriptors, each for the connection behind it at that moment. */
  predicate Reported(s: State, events: seq<Event>) {
    forall i :: 0 <= i < |events| ==>
      events[i].fd >= 0 && events[i].fd in s.opens && s.opens[events[i].fd] == events[i].conn
  }

  predicate KernelTrue(steps: seq<Step>) {
    forall i :: 0 <= i < |steps| && steps[i].Batch? ==> Reported(RunSteps(steps[..i]), steps[i].events)
  }

  lemma {:induction false} DispatchAllKeeps(s: State, events: seq<Event>)
    requires Acc(s, {}) && Reported(s, events)
    ensures var s' := DispatchAll(s, events);
            Acc(s', {}) && s.log <= s'.log
                && (forall fd :: fd in s.opens ==> fd in s'.opens && s'.opens[fd] == s.opens[fd])
  {
    hide Acc, Dispatch;
    if events != [] {
      var front, last := events[..|events| - 1], events[|events| - 1];
      DispatchAllKeeps(s, front);
      DispatchKeeps(DispatchAll(s, front), last);
    }
  }

  lemma FlushKeeps(s: State)
    requires Acc(s, {})
    ensures Acc(Flush(s), {}) && InStep(Flush(s))
  {
    hide Accounted;
  }

  lemma {:induction false} RunStepsKeeps(steps: seq<Step>)
    requires KernelTrue(steps)
    ensures Acc(RunSteps(steps), {}) && InStep(RunSteps(steps)) && RunSteps(steps).cur == -1
    decreases |steps|
  {
    hide Acc, DispatchAll, Run;
    if steps == [] {
      StartAcc();
    } else {
      var front, last := steps[..|steps| - 1], steps[|steps| - 1];
      forall i | 0 <= i < |front| ensures front[..i] == steps[..i] {
      }
      RunStepsKeeps(front);
      match last {
        case Batch(events) =>
          DispatchAllKeeps(RunSteps(front), events);
          FlushKeeps(DispatchAll(RunSteps(front), events));
        case Outside(script) => RunKeeps(RunSteps(front), script, {});
      }
    }
  }

  lemma StartAcc()
    ensures Acc(Start, {})
  {
  }

  lemma {:induction false} EndedAt(log: seq<Entry>, r: Reg)
    ensures EndedIn(log, r) <==> exists i :: 0 <= i < |log| && Ends(log[i], r)
  {
    if log != [] {
      EndedAt(log[..|log| - 1], r);
      if Ends(log[|log| - 1], r) {
      } else if EndedIn(log, r) {
        var i :| 0 <= i < |log| - 1 && Ends(log[..|log| - 1][i], r);
        assert Ends(log[i], r);
      } else {
        forall i | 0 <= i < |log| - 1 ensures !Ends(log[i], r) {
          assert log[i] == log[..|log| - 1][i];
        }
      }
    }
  }

  /** In an orderly history nothing follows a callback's end, and it ends for a permitted reason. */
  lemma {:induction false} OrderlyEnds(log: seq<Entry>, r: Reg, i: nat, j: nat)
    requires Orderly(log) && i < |log| && j <= |log| && Ends(log[i], r)
    ensures i < j < |log| ==> !Ends(log[j], r) && !Calls(log[j], r)
    ensures log[i].Gone? ==> MayDrop(r.ev, log[i].why)
    decreases |log|
  {
    hide MadeIn;
    var front, last := log[..|log| - 1], log[|log| - 1];
    if i < |log| - 1 {
      assert front[i] == log[i];
      EndedAt(front, r);
      if j >= |log| - 1 {
        OrderlyEnds(front, r, i, i);
      } else {
        assert front[j] == log[j];
        OrderlyEnds(front, r, i, j);
      }
    }
  }

  /** Every callback's fate, in every run, whatever callbacks do and the kernel reports: it is still
      registered and has not ended, or it ended once, after which it is never called. A CONNECT or CLOSE
      callback that has ended was called, or was replaced or unwatched by a caller, or (CLOSE only)
      belonged to a connection that failed. */
  lemma CallbackFate(steps: seq<Step>, r: Reg)
    requires KernelTrue(steps)
    ensures var s := RunSteps(steps);
            && (Live(s.fds, r) ==> MadeIn(s.log, r) && forall i :: 0 <= i < |s.log| ==> !Ends(s.log[i], r))
            && (MadeIn(s.log, r) && !Live(s.fds, r) ==> exists i :: 0 <= i < |s.log| && Ends(s.log[i], r))
            && (forall i, j :: 0 <= i < j < |s.log| && Ends(s.log[i], r) ==> !Ends(s.log[j], r) && !Calls(s.log[j], r))
            && (forall i :: 0 <= i < |s.log| && Ends(s.log[i], r) && s.log[i].Gone? ==> MayDrop(r.ev, s.log[i].why))
  {
    hide RunSteps, Orderly, MadeIn, EndedIn;
    RunStepsKeeps(steps);
    var s := RunSteps(steps);
    EndedAt(s.log, r);
    forall i: nat, j: nat | i < j < |s.log| && Ends(s.log[i], r) ensures !Ends(s.log[j], r) && !Calls(s.log[j], r) {
      OrderlyEnds(s.log, r, i, j);
    }
    forall i: nat | i < |s.log| && Ends(s.log[i], r) && s.log[i].Gone? ensures MayDrop(r.ev, s.log[i].why) {
      OrderlyEnds(s.log, r, i, i);
    }
  }

  // ---- Closing tells both callbacks ----

  lemma RunLog(s: State, script: Script, held: set<Reg>)
    requires Acc(s, held) && InStep(s)
    ensures s.log <= Run(s, script).log
  {
    hide Acc, Run;
    RunKeeps(s, script, held);
  }

  ghost predicate CalledSince(s: State, s': State, r: Reg, result: Result) {
    exists i :: |s.log| <= i < |s'.log| && s'.log[i] == Fired(r, result)
  }

  lemma FiredThenRun(s0: State, s: State, r: Reg, result: Result, script: Script, held: set<Reg>)
    requires |s0.log| <= |s.log| && Acc(Fire(s, r, result), held) && InStep(s)
    ensures CalledSince(s0, Run(Fire(s, r, result), script), r, result)
  {
    hide Acc, Run;
    RunLog(Fire(s, r, result), script, held);
    assert Run(Fire(s, r, result), script).log[|s.log|] == Fired(r, result);
  }

  /** unwatch() tells a waiting CONNECT callback that it is over, unless asked to be quiet. */
  lemma UnwatchTells(s: State, fd: int, why: Why, gameOver: Script, held: set<Reg>)
    requires Acc(s, held) && InStep(s) && fd in s.fds && (why == Unwatched || why == Closed)
    ensures var (s', ok) := UnwatchFd(s, fd, why, gameOver);
            ok && (OnConnect in s.fds[fd] ==> CalledSince(s, s', s.fds[fd][OnConnect], GameOver))
  {
    hide Acc, Regs, Dropped, InStep, Run;
    var cbs := s.fds[fd];
    if OnConnect in cbs {
      var held1 := held + Retained(cbs, why);
      var r := cbs[OnConnect];
      EraseKeeps(s, fd, why, held);
      var s1 := Erase(s, fd).(log := s.log + [Gone(fd, Dropped(cbs, why), why)]);
      OnlyReg(fd, cbs, OnConnect);
      IsOnce(fd, cbs, OnConnect);
      FireKeeps(s1, r, GameOver, held1 + {r});
      FiredThenRun(s, s1, r, GameOver, gameOver, held1 + {r} - {r});
    }
  }

  /** close() calls the CLOSE callback and a waiting CONNECT callback, whatever they do in turn. */
  lemma CloseTells(s: State, fd: int, force: bool, reply: Reply, held: set<Reg>)
    requires Acc(s, held) && InStep(s) && OnClose in Get(s.fds, fd)
    ensures var s' := CloseFd(s, fd, force, reply).0;
            && CalledSince(s, s', s.fds[fd][OnClose], Plain)
            && (OnConnect in s.fds[fd] ==> CalledSince(s, s', s.fds[fd][OnConnect], GameOver))
  {
    hide Acc, Regs, InStep, UnwatchFd, Run, Once;
    var s0, f := s.(writeBuf := s.writeBuf - {fd}), s.fds[fd][OnClose];
    SameAccount(s, s0, held);
    UnwatchKeeps(s0, fd, Closed, reply.gameOver, held);
    UnwatchTells(s0, fd, Closed, reply.gameOver, held);
    var s1 := UnwatchFd(s0, fd, Closed, reply.gameOver).0;
    var s2 := s1.(closing := s1.closing + [fd]);
    CloseAccount(s, fd, held);
    SameAccount(s1, s2, held + {f});
    FireKeeps(s2, f, Plain, held + {f});
    FiredThenRun(s, s2, f, Plain, reply.closed, held + {f} - {f});
    RunLog(Fire(s2, f, Plain), reply.closed, held + {f} - {f});
    if OnConnect in s.fds[fd] {
      StillCalled(s, s1, Run(Fire(s2, f, Plain), reply.closed), s.fds[fd][OnConnect], GameOver);
    }
  }

  lemma StillCalled(s: State, s': State, s'': State, r: Reg, result: Result)
    requires CalledSince(s, s', r, result) && s'.log <= s''.log
    ensures CalledSince(s, s'', r, result)
  {
    var i :| |s.log| <= i < |s'.log| && s'.log[i] == Fired(r, result);
    assert s''.log[i] == Fired(r, result);
  }

  /** So does the peer's hanging up. */
  lemma HangupTells(s: State, e: Event)
    requires Acc(s, {}) && InStep(s) && s.cur >= 0 && OnClose in s.curCb
    ensures var s' := HangupStage(s, e);
            && CalledSince(s, s', s.curCb[OnClose], Plain)
            && (OnConnect in s.curCb ==> CalledSince(s, s', s.curCb[OnConnect], GameOver))
  {
    hide Acc, Regs, InStep, UnwatchFd, Run, Once;
    var f := CurrentClose(s);
    UnwatchKeeps(s, s.cur, Closed, e.hung.gameOver, {});
    UnwatchTells(s, s.cur, Closed, e.hung.gameOver, {});
    var s1 := UnwatchFd(s, s.cur, Closed, e.hung.gameOver).0;
    var s2 := s1.(closing := s1.closing + [s.cur]);
    CloseAccount(s, s.cur, {});
    SameAccount(s1, s2, {} + {f});
    FireKeeps(s2, f, Plain, {} + {f});
    FiredThenRun(s, s2, f, Plain, e.hung.closed, {} + {f} - {f});
    RunLog(Fire(s2, f, Plain), e.hung.closed, {} + {f} - {f});
    if OnConnect in s.curCb {
      StillCalled(s, s1, Run(Fire(s2, f, Plain), e.hung.closed), s.curCb[OnConnect], GameOver);
    }
  }

  lemma CurrentClose(s: State) returns (f: Reg)
    requires InStep(s) && s.cur >= 0 && OnClose in s.curCb
    ensures f == s.curCb[OnClose] && s.cur in s.fds && s.fds[s.cur] == s.curCb && OnClose in Get(s.fds, s.cur)
  {
    f := s.curCb[OnClose];
  }

  // ---- What an event calls ----

  lemma ReadTells(s: State, e: Event)
    requires Acc(s, {}) && InStep(s) && s.cur >= 0 && e.input && OnRead in s.curCb
    ensures CalledSince(s, ReadStage(s, e), s.curCb[OnRead], Plain)
  {
    hide Acc, Run, InStep;
    CurrentLive(s, OnRead);
    FireKeeps(s, s.curCb[OnRead], Plain, {});
    FiredThenRun(s, s, s.curCb[OnRead], Plain, e.read, {});
  }

  /** With nothing owed, a writable event calls WRITE. */
  lemma WriteTells(s: State, e: Event)
    requires Acc(s, {}) && InStep(s) && s.cur >= 0 && e.output && s.cur !in s.writeBuf && OnWrite in s.curCb
    ensures CalledSince(s, WriteStage(s, e), s.curCb[OnWrite], Plain)
  {
    hide Acc, Run, InStep;
    CurrentLive(s, OnWrite);
    FireKeeps(s, s.curCb[OnWrite], Plain, {});
    FiredThenRun(s, s, s.curCb[OnWrite], Plain, e.written, {});
  }

  lemma ErrorTells(s: State, e: Event)
    requires Acc(s, {}) && InStep(s) && s.cur >= 0 && e.error && OnError in s.curCb
    ensures CalledSince(s, ErrorStage(s, e).0, s.curCb[OnError], Plain)
  {
    hide Acc, Run, InStep;
    CurrentLive(s, OnError);
    FireKeeps(s, s.curCb[OnError], Plain, {});
    FiredThenRun(s, s, s.curCb[OnError], Plain, e.failed, {});
  }

  /** The stages in order: reading first, then writing, errors, and the hang-up last, each finding the callbacks
      as the earlier ones left them. An error without an ERROR callback counts as a hang-up. */
  lemma StagesTell(s: State, e: Event)
    requires Acc(s, {}) && InStep(s) && s.cur >= 0
    ensures var a := ReadStage(s, e);
            var b := WriteStage(a, e);
            var (c, hup) := ErrorStage(b, e);
            var s' := Stages(s, e);
            && (e.input && OnRead in s.curCb ==> CalledSince(s, s', s.curCb[OnRead], Plain))
            && (e.output && a.cur !in a.writeBuf && OnWrite in a.curCb ==> CalledSince(a, s', a.curCb[OnWrite], Plain))
            && (e.error && OnError in b.curCb ==> CalledSince(b, s', b.curCb[OnError], Plain))
            && hup == (e.hangup || e.peerClosed || (e.error && OnError !in b.curCb))
            && (hup && OnClose in c.curCb ==> CalledSince(c, s', c.curCb[OnClose], Plain))
            && (!hup ==> s' == c)
  {
    hide Acc, InStep, ReadStage, WriteStage, HangupStage, CalledSince, Run;
    var a := ReadStage(s, e);
    ReadKeeps(s, e);
    var b := WriteStage(a, e);
    WriteStageKeeps(a, e);
    var (c, hup) := ErrorStage(b, e);
    ErrorKeeps(b, e);
    var s' := Stages(s, e);
    if hup {
      HangupKeeps(c, e);
    }
    assert a.log <= b.log && b.log <= c.log && c.log <= s'.log;
    if e.input && OnRead in s.curCb {
      ReadTells(s, e);
      StillCalled(s, a, s', s.curCb[OnRead], Plain);
    }
    if e.output && a.cur !in a.writeBuf && OnWrite in a.curCb {
      WriteTells(a, e);
      StillCalled(a, b, s', a.curCb[OnWrite], Plain);
    }
    if e.error && OnError in b.curCb {
      ErrorTells(b, e);
      StillCalled(b, c, s', b.curCb[OnError], Plain);
    }
    if hup && OnClose in c.curCb {
      HangupTells(c, e);
    }
  }

  /** A connecting descriptor's event calls CONNECT: with OK when the descriptor is writable, reports neither
      error nor hang-up, and has no socket error; otherwise with NG. */
  lemma ConnectTells(s: State, e: Event)
    requires Acc(s, {}) && e.fd >= 0 && e.fd in s.opens && e.fd in s.fds && OnConnect in s.fds[e.fd]
    ensures var ok := !e.error && !e.hangup && e.output && !e.sockError;
            CalledSince(s, Dispatch(s, e), s.fds[e.fd][OnConnect], if ok then Connected else Refused)
  {
    hide Acc, Run, UnwatchFd, Stages, TakeConnect, CalledSince;
    var s1 := s.(cur := e.fd, curCb := s.fds[e.fd]);
    CursorFree(s, s1);
    var f, s2 := s1.curCb[OnConnect], TakeConnect(s1);
    TakeConnectKeeps(s1);
    if !e.error && !e.hangup && e.output && !e.sockError {
      FireKeeps(s2, f, Connected, {} + {f});
      FiredThenRun(s, s2, f, Connected, e.connected, {} + {f} - {f});
      var s3 := Run(Fire(s2, f, Connected), e.connected);
      RunKeeps(Fire(s2, f, Connected), e.connected, {} + {f} - {f});
      assert {} + {f} - {f} == {};
      StagesKeep(s3, e);
      StillCalled(s, s3, Stages(s3, e), f, Connected);
    } else {
      NoConnect(s1);
      UnwatchKeeps(s2, e.fd, ConnectFailed, e.connected, {} + {f});
      var s3 := UnwatchFd(s2, e.fd, ConnectFailed, e.connected).0;
      assert {} + {f} + {} == {} + {f};
      FireKeeps(s3, f, Refused, {} + {f});
      FiredThenRun(s, s3, f, Refused, e.connected, {} + {f} - {f});
    }
  }

  // ---- Deferred closing ----

  /** No event reaches a connection opened during its batch: whatever the callbacks of the batch
      close and open, at its turn an event's descriptor still names the connection it was reported for. */
  lemma NoMisdelivery(steps: seq<Step>, events: seq<Event>, i: nat)
    requires KernelTrue(steps + [Batch(events)]) && i < |events|
    ensures var s := DispatchAll(RunSteps(steps), events[..i]);
            events[i].fd in s.opens && s.opens[events[i].fd] == events[i].conn
  {
    hide Acc, DispatchAll;
    var all := steps + [Batch(events)];
    assert all[..|steps|] == steps && all[|steps|] == Batch(events);
    assert Reported(RunSteps(steps), events);
    forall k | 0 <= k < |steps| ensures steps[..k] == all[..k] {
    }
    RunStepsKeeps(steps);
    DispatchAllKeeps(RunSteps(steps), events[..i]);
  }

  /** A descriptor queued for closing stays open, and its number taken, until the batch ends. */
  lemma ClosedAtTheEnd(s: State, events: seq<Event>, fd: int)
    requires Acc(s, {}) && Reported(s, events)
    ensures var s' := DispatchAll(s, events);
            && (fd in s.opens ==> fd in s'.opens && s'.opens[fd] == s.opens[fd])
            && (fd in s'.closing ==> fd !in HandleEvents(s, events).opens)
            && HandleEvents(s, events).closing == []
  {
    hide Acc, DispatchAll;
    DispatchAllKeeps(s, events);
  }

  /** When a READ callback has closed its own descriptor and nothing is owed on it, the rest of the event leaves
      an empty entry behind exactly if it is writable and does not count as a hang-up: the interest update
      after the write puts the entry back. If it does count as one, the descriptor is queued a second time. */
  lemma ClosedButRevived(s: State, e: Event)
    requires Acc(s, {}) && InStep(s) && s.cur >= 0
    requires var a := ReadStage(s, e); a.cur !in a.fds && a.cur !in a.writeBuf
    ensures var a, s' := ReadStage(s, e), Stages(s, e);
            var hup := e.hangup || e.peerClosed || e.error;
            && (s.cur in s'.fds <==> e.output && !hup)
            && s'.fds == (if e.output && !hup then a.fds[s.cur := map[]] else a.fds)
            && s'.closing == (if e.output && hup then a.closing + [s.cur] else a.closing)
  {
    hide Acc, Run, ReadStage;
    ReadKeeps(s, e);
    var a := ReadStage(s, e);
    assert a.cur == s.cur && a.curCb == map[];
    assert a.fds[s.cur := map[]] - {s.cur} == a.fds;
  }

  lemma UnwatchTrue(s: State, fd: int, why: Why, gameOver: Script)
    requires fd in s.fds
    ensures UnwatchFd(s, fd, why, gameOver).1
  {
    hide Run;
  }
}
