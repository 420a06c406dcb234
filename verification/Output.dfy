/** EventManager::write and the bytes a descriptor still owes (EventManager.cpp:184-232, 513-527). */
module Output {
  import opened Bytes

  /** The kernel's answer to one ::write: bytes taken, EAGAIN, EPIPE, or another error. */
  datatype Answer = Took(n: nat) | Full | Pipe | Error

  datatype End = Done | Blocked | Broken | Failed

  /** What one loop of writes got rid of, and why it stopped. */
  datatype Outcome = Outcome(taken: nat, end: End)

  function Min(a: nat, b: nat): nat { if a < b then a else b }

  /** The loop over ::write for `count` bytes of which `size` are out. The kernel takes at most
      what it is offered, and answers EAGAIN once `answers` runs out. */
  function Loop(answers: seq<Answer>, size: nat, count: nat): (r: Outcome)
    requires size <= count
    ensures size <= r.taken <= count
    ensures r.end == Done ==> r.taken == count
    ensures r.end != Done && count > 0 && size < count ==> r.taken < count
    decreases |answers|
  {
    if answers == [] then Outcome(size, Blocked)
    else match answers[0]
      case Took(n) =>
        var now := size + Min(n, count - size);
        if now < count then Loop(answers[1..], now, count) else Outcome(count, Done)
      case Full => Outcome(size, Blocked)
      case Pipe => Outcome(size, Broken)
      case Error => Outcome(size, Failed)
  }

  /** The bytes waiting for a descriptor; None when it has no entry in _write_buf. */
  datatype Waiting = Nothing | Bytes(data: bytes)

  function Owed(w: Waiting): bytes {
    if w.Bytes? then w.data else []
  }

  function WaitingOf(buf: map<int, bytes>, fd: int): Waiting {
    if fd in buf then Bytes(buf[fd]) else Nothing
  }

  /** Bytes handed to write() by its caller, bytes the kernel took, bytes still owed. */
  datatype Channel = Channel(out: bytes, waiting: Waiting)

  /** write(): queue behind what waits, else offer to the kernel and keep what EAGAIN left. */
  function Write(c: Channel, data: bytes, answers: seq<Answer>): (Channel, End) {
    if c.waiting.Bytes? then (c.(waiting := Bytes(c.waiting.data + data)), Done)
    else
      var k := Loop(answers, 0, |data|);
      var c' := c.(out := c.out + data[..k.taken]);
      if k.end == Blocked then (c'.(waiting := Bytes(data[k.taken..])), Blocked) else (c', k.end)
  }

  /** _finish_write_buf(): offer what waits again. */
  function Finish(c: Channel, answers: seq<Answer>): (Channel, End) {
    if c.waiting.Nothing? then (c, Done) else Write(c.(waiting := Nothing), c.waiting.data, answers)
  }

  function Stream(c: Channel): bytes { c.out + Owed(c.waiting) }

  predicate Fatal(e: End) { e == Broken || e == Failed }

  /** No byte is lost, repeated or reordered, whatever the kernel takes, short of a fatal error. */
  lemma WriteAppends(c: Channel, data: bytes, answers: seq<Answer>)
    requires !Fatal(Write(c, data, answers).1)
    ensures Stream(Write(c, data, answers).0) == Stream(c) + data
  {
    var k := Loop(answers, 0, |data|);
    if c.waiting.Nothing? {
      assert c.out + data[..k.taken] + data[k.taken..] == c.out + data;
      assert data[..|data|] == data;
    }
  }

  lemma FinishKeeps(c: Channel, answers: seq<Answer>)
    requires !Fatal(Finish(c, answers).1)
    ensures Stream(Finish(c, answers).0) == Stream(c)
  {
    if c.waiting.Bytes? {
      WriteAppends(c.(waiting := Nothing), c.waiting.data, answers);
      assert c.out + [] == c.out;
    }
  }

  /** The error that makes write() give up and forget bytes while the descriptor lives on. */
  predicate Loses(c: Channel, data: bytes, answers: seq<Answer>) {
    Write(c, data, answers).1 == Failed && data != []
  }

  predicate FinishLoses(c: Channel, answers: seq<Answer>) {
    Finish(c, answers).1 == Failed && Owed(c.waiting) != []
  }

  /** Unless the pipe breaks, the stream grows by exactly the data if and only if none of it is lost. */
  lemma WriteExact(c: Channel, data: bytes, answers: seq<Answer>)
    ensures var (c', end) := Write(c, data, answers);
            && (end != Broken && !Loses(c, data, answers) ==> Stream(c') == Stream(c) + data)
            && (end != Broken && Loses(c, data, answers) ==> |Stream(c')| < |Stream(c)| + |data|)
            && (end == Broken ==> |c'.out| <= |Stream(c)| + |data| && (data != [] ==> |c'.out| < |Stream(c)| + |data|))
  {
    if !Fatal(Write(c, data, answers).1) {
      WriteAppends(c, data, answers);
    } else if data == [] {
      assert data[..Loop(answers, 0, 0).taken] == [];
      assert c.out + [] == c.out && c.out + [] + [] == c.out;
    }
  }

  lemma FinishExact(c: Channel, answers: seq<Answer>)
    ensures var (c', end) := Finish(c, answers);
            && (end != Broken && !FinishLoses(c, answers) ==> Stream(c') == Stream(c))
            && (end != Broken && FinishLoses(c, answers) ==> |Stream(c')| < |Stream(c)|)
  {
    if c.waiting.Bytes? {
      WriteExact(c.(waiting := Nothing), c.waiting.data, answers);
      assert c.out + [] == c.out;
    }
  }

  /** Even after a fatal error, what went out is a prefix of what was to go out. */
  lemma FatalIsPrefix(c: Channel, data: bytes, answers: seq<Answer>)
    ensures Write(c, data, answers).0.out <= Stream(c) + data
    ensures c.out <= Write(c, data, answers).0.out
  {
    var k := Loop(answers, 0, |data|);
    if c.waiting.Nothing? {
      assert c.out + data == c.out + data[..k.taken] + data[k.taken..];
    } else {
      assert Stream(c) + data == c.out + (c.waiting.data + data);
    }
  }

  /** What happens to a descriptor's output: its owner writes, or the kernel has room again. */
  datatype Act = Send(data: bytes, answers: seq<Answer>) | Room(answers: seq<Answer>)

  function ActOn(c: Channel, a: Act): (Channel, End) {
    match a
    case Send(data, answers) => Write(c, data, answers)
    case Room(answers) => Finish(c, answers)
  }

  function Acts(c: Channel, acts: seq<Act>): (r: (Channel, bool))
    decreases |acts|
  {
    if acts == [] then (c, true)
    else
      var (c', end) := ActOn(c, acts[0]);
      if Fatal(end) then (c', false) else Acts(c', acts[1..])
  }

  function HandedBy(a: Act): bytes { if a.Send? then a.data else [] }

  function Handed(acts: seq<Act>): bytes {
    if acts == [] then [] else HandedBy(acts[0]) + Handed(acts[1..])
  }

  /** Over any run: what the kernel took, then what is owed, is what was written; and when a
      fatal error ends the run, the kernel has a prefix of it. */
  lemma {:induction false} OutputFidelity(c: Channel, acts: seq<Act>)
    ensures Acts(c, acts).1 ==> Stream(Acts(c, acts).0) == Stream(c) + Handed(acts)
    ensures Acts(c, acts).0.out <= Stream(c) + Handed(acts)
    decreases |acts|
  {
    hide Stream, ActOn;
    if acts == [] {
      Streams(c);
      assert Stream(c) + [] == Stream(c);
    } else {
      var (c', end) := ActOn(c, acts[0]);
      ActStream(c, acts[0]);
      Assoc(Stream(c), HandedBy(acts[0]), Handed(acts[1..]));
      if !Fatal(end) {
        OutputFidelity(c', acts[1..]);
      }
    }
  }

  lemma Assoc(a: bytes, b: bytes, c: bytes)
    ensures a + b + c == a + (b + c)
  {
  }

  lemma Streams(c: Channel)
    ensures c.out <= Stream(c)
  {
  }

  lemma ActStream(c: Channel, a: Act)
    ensures var (c', end) := ActOn(c, a);
            && (!Fatal(end) ==> Stream(c') == Stream(c) + HandedBy(a))
            && c'.out <= Stream(c) + HandedBy(a)
  {
    match a {
      case Send(data, answers) =>
        if !Fatal(Write(c, data, answers).1) {
          WriteAppends(c, data, answers);
        }
        FatalIsPrefix(c, data, answers);
      case Room(answers) =>
        assert Stream(c) + [] == Stream(c);
        if !Fatal(Finish(c, answers).1) {
          FinishKeeps(c, answers);
        }
        if c.waiting.Bytes? {
          FatalIsPrefix(c.(waiting := Nothing), c.waiting.data, answers);
          assert c.out + [] == c.out;
        }
    }
  }

  /** The loop of ::write calls itself. */
  method WriteLoop(count: nat, answers: seq<Answer>) returns (r: Outcome)
    ensures r == Loop(answers, 0, count)
  {
    var size: nat := 0;
    var i := 0;
    assert answers[0..] == answers;
    while true
      invariant 0 <= i <= |answers| && size <= count
      invariant Loop(answers[i..], size, count) == Loop(answers, 0, count)
      decreases |answers| - i
    {
      if i == |answers| {
        return Outcome(size, Blocked);
      }
      var ret := answers[i];
      assert answers[i..][1..] == answers[i + 1..];
      match ret {
        case Took(n) =>
          size := size + Min(n, count - size);
        case Full => return Outcome(size, Blocked);
        case Pipe => return Outcome(size, Broken);
        case Error => return Outcome(size, Failed);
      }
      i := i + 1;
      if size >= count {
        return Outcome(count, Done);
      }
    }
  }
}
