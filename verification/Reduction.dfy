/** A dot product computed in parts by threads that add to one result, under a mutex or with an atomic
    addition (data_structure/thread.cpp). Mathematical integers. */
module Reduction {

  /** The sequential dot product of v1[l..r] and v2[l..r]. */
  function Dot(v1: seq<int>, v2: seq<int>, l: nat, r: nat): int
    requires |v1| == |v2| && l <= r <= |v1|
    decreases r - l
  {
    if l == r then 0 else Dot(v1, v2, l, r - 1) + v1[r - 1] * v2[r - 1]
  }

  lemma {:induction false} DotSplit(v1: seq<int>, v2: seq<int>, l: nat, m: nat, r: nat)
    requires |v1| == |v2| && l <= m <= r <= |v1|
    ensures Dot(v1, v2, l, m) + Dot(v1, v2, m, r) == Dot(v1, v2, l, r)
    decreases r - m
  {
    if m < r {
      DotSplit(v1, v2, l, m, r - 1);
    }
  }

  // ---- The parts ----

  /** Consecutive segments from 0 to `mem`. */
  predicate Covers(bnd: seq<int>, parts: nat, mem: nat) {
    && |bnd| == parts + 1 && bnd[0] == 0 && bnd[parts] == mem
    && forall i, k :: 0 <= i <= k <= parts ==> 0 <= bnd[i] <= bnd[k] <= mem
  }

  lemma DivMod(mem: nat, parts: nat)
    requires parts > 0
    ensures mem / parts >= 0 && mem % parts >= 0 && mem / parts * (parts - 1) + mem / parts + mem % parts == mem
  {
    var q := mem / parts;
    assert mem == parts * q + mem % parts;
    assert parts * q == q * (parts - 1) + q;
  }

  lemma OneTimesMore(a: nat, i: nat)
    ensures a * i + a == a * (i + 1) && a * i >= 0
  {
  }

  /** Equal parts, the remainder going to the last. */
  method Bounds(parts: nat, mem: nat) returns (bnd: seq<int>)
    requires parts > 0
    ensures Covers(bnd, parts, mem)
    ensures forall i :: 0 <= i < parts - 1 ==> bnd[i + 1] - bnd[i] == mem / parts
    ensures bnd[parts] - bnd[parts - 1] == mem / parts + mem % parts
  {
    var delta, remainder := mem / parts, mem % parts;
    DivMod(mem, parts);
    var n1, n2 := 0, 0;
    bnd := [n1];
    for i := 0 to parts
      invariant |bnd| == i + 1 && n1 == bnd[i] && bnd[0] == 0
      invariant n1 == if i < parts then delta * i else mem
      invariant forall k, j :: 0 <= k <= j <= i ==> 0 <= bnd[k] <= bnd[j] <= n1
      invariant forall k :: 0 <= k < i && k < parts - 1 ==> bnd[k + 1] - bnd[k] == delta
      invariant i == parts ==> bnd[parts] - bnd[parts - 1] == delta + remainder
    {
      OneTimesMore(delta, i);
      n2 := n1 + delta;
      if i == parts - 1 {
        n2 := n2 + remainder;
      }
      bnd := bnd + [n2];
      n1 := n2;
    }
  }

  // ---- The threads ----

  /** Where a thread is: at index `i` of its loop; then, with a mutex, holding it, with the result loaded,
      with it stored; then done. */
  datatype At = Summing(i: int) | Locked | Loaded(seen: int) | Stored | Done

  datatype Thread = Thread(at: At, sum: int)

  datatype Machine = Machine(threads: seq<Thread>, holder: int, result: int)

  const Nobody := -1

  function Begin(bnd: seq<int>): Machine
    requires |bnd| > 0
  {
    Machine(seq(|bnd| - 1, t requires 0 <= t < |bnd| - 1 => Thread(Summing(bnd[t]), 0)), Nobody, 0)
  }

  function Set(m: Machine, t: nat, th: Thread): Machine
    requires t < |m.threads|
  {
    m.(threads := m.threads[t := th])
  }

  /** One step of thread `t`; without effect when it is done or must wait for the mutex. */
  function Step(v1: seq<int>, v2: seq<int>, bnd: seq<int>, atomic: bool, m: Machine, t: nat): Machine
    requires |v1| == |v2| && Covers(bnd, |m.threads|, |v1|)
  {
    if t >= |m.threads| then m
    else
      var th := m.threads[t];
      match th.at
      case Summing(i) =>
        if 0 <= i < bnd[t + 1] then Set(m, t, Thread(Summing(i + 1), th.sum + v1[i] * v2[i]))
        else if atomic then Set(m, t, th.(at := Done)).(result := m.result + th.sum)
        else if m.holder == Nobody then Set(m, t, th.(at := Locked)).(holder := t)
        else m
      case Locked => Set(m, t, th.(at := Loaded(m.result)))
      case Loaded(seen) => Set(m, t, th.(at := Stored)).(result := seen + th.sum)
      case Stored => Set(m, t, th.(at := Done)).(holder := Nobody)
      case Done => m
  }

  function Run(v1: seq<int>, v2: seq<int>, bnd: seq<int>, atomic: bool, schedule: seq<nat>): (m: Machine)
    requires |v1| == |v2| && |bnd| > 0 && Covers(bnd, |bnd| - 1, |v1|)
    ensures |m.threads| == |bnd| - 1
  {
    if schedule == [] then Begin(bnd)
    else Step(v1, v2, bnd, atomic, Run(v1, v2, bnd, atomic, schedule[..|schedule| - 1]), schedule[|schedule| - 1])
  }

  /** What a thread has yet to add to the result. */
  predicate Adding(at: At) { at.Summing? || at.Locked? || at.Loaded? }

  function Owing(v1: seq<int>, v2: seq<int>, bnd: seq<int>, threads: seq<Thread>, n: nat): int
    requires |v1| == |v2| && n <= |threads| && Covers(bnd, |threads|, |v1|)
  {
    if n == 0 then 0
    else Owing(v1, v2, bnd, threads, n - 1) + if Adding(threads[n - 1].at) then Dot(v1, v2, bnd[n - 1], bnd[n]) else 0
  }

  lemma {:induction false} OwingUpdate(v1: seq<int>, v2: seq<int>, bnd: seq<int>, threads: seq<Thread>, n: nat, t: nat,
      th: Thread)
    requires |v1| == |v2| && n <= |threads| && Covers(bnd, |threads|, |v1|) && t < |threads|
    ensures Owing(v1, v2, bnd, threads[t := th], n)
         == Owing(v1, v2, bnd, threads, n)
            + (if t < n && Adding(th.at) then Dot(v1, v2, bnd[t], bnd[t + 1]) else 0)
            - (if t < n && Adding(threads[t].at) then Dot(v1, v2, bnd[t], bnd[t + 1]) else 0)
  {
    if n > 0 {
      OwingUpdate(v1, v2, bnd, threads, n - 1, t, th);
    }
  }

  lemma {:induction false} OwingAll(v1: seq<int>, v2: seq<int>, bnd: seq<int>, threads: seq<Thread>, n: nat)
    requires |v1| == |v2| && n <= |threads| && Covers(bnd, |threads|, |v1|)
    ensures (forall t :: 0 <= t < n ==> Adding(threads[t].at)) ==>
          Owing(v1, v2, bnd, threads, n) == Dot(v1, v2, 0, bnd[n])
    ensures (forall t :: 0 <= t < n ==> !Adding(threads[t].at)) ==> Owing(v1, v2, bnd, threads, n) == 0
  {
    if n > 0 {
      OwingAll(v1, v2, bnd, threads, n - 1);
      DotSplit(v1, v2, 0, bnd[n - 1], bnd[n]);
    }
  }

  predicate ThreadOk(v1: seq<int>, v2: seq<int>, bnd: seq<int>, m: Machine, t: nat)
    requires |v1| == |v2| && t < |m.threads| && Covers(bnd, |m.threads|, |v1|)
  {
    var th := m.threads[t];
    && (th.at.Summing? ==> bnd[t] <= th.at.i <= bnd[t + 1] && th.sum == Dot(v1, v2, bnd[t], th.at.i))
    && (!th.at.Summing? ==> th.sum == Dot(v1, v2, bnd[t], bnd[t + 1]))
    && (th.at.Loaded? ==> th.at.seen == m.result)
    && (th.at.Locked? || th.at.Loaded? || th.at.Stored? <==> m.holder == t)
  }

  ghost predicate Inv(v1: seq<int>, v2: seq<int>, bnd: seq<int>, m: Machine)
    requires |v1| == |v2|
  {
    && Covers(bnd, |m.threads|, |v1|)
    && (forall t :: 0 <= t < |m.threads| ==> ThreadOk(v1, v2, bnd, m, t))
    && m.result + Owing(v1, v2, bnd, m.threads, |m.threads|) == Dot(v1, v2, 0, |v1|)
  }

  lemma StepKeeps(v1: seq<int>, v2: seq<int>, bnd: seq<int>, atomic: bool, m: Machine, t: nat)
    requires |v1| == |v2| && Inv(v1, v2, bnd, m) && (atomic ==> m.holder == Nobody)
    ensures var m' := Step(v1, v2, bnd, atomic, m, t);
            Inv(v1, v2, bnd, m') && |m'.threads| == |m.threads| && (atomic ==> m'.holder == Nobody)
  {
    hide Covers, Dot;
    var m' := Step(v1, v2, bnd, atomic, m, t);
    if t < |m.threads| {
      assert ThreadOk(v1, v2, bnd, m, t);
      Between(bnd, |m.threads|, |v1|, t);
      OwingUpdate(v1, v2, bnd, m.threads, |m.threads|, t, m'.threads[t]);
      assert m'.threads == m.threads[t := m'.threads[t]];
      if m.threads[t].at.Summing? && m.threads[t].at.i < bnd[t + 1] {
        OneMore(v1, v2, bnd[t], m.threads[t].at.i);
      }
      forall k | 0 <= k < |m'.threads| ensures ThreadOk(v1, v2, bnd, m', k) {
        assert ThreadOk(v1, v2, bnd, m, k);
      }
    }
  }

  lemma Between(bnd: seq<int>, parts: nat, mem: nat, t: nat)
    requires Covers(bnd, parts, mem) && t < parts
    ensures |bnd| == parts + 1 && 0 <= bnd[t] <= bnd[t + 1] <= mem
  {
  }

  lemma OneMore(v1: seq<int>, v2: seq<int>, l: nat, i: nat)
    requires |v1| == |v2| && l <= i < |v1|
    ensures Dot(v1, v2, l, i + 1) == Dot(v1, v2, l, i) + v1[i] * v2[i]
  {
  }

  lemma {:induction false} RunKeeps(v1: seq<int>, v2: seq<int>, bnd: seq<int>, atomic: bool, schedule: seq<nat>)
    requires |v1| == |v2| && |bnd| > 0 && Covers(bnd, |bnd| - 1, |v1|)
    ensures var m := Run(v1, v2, bnd, atomic, schedule); Inv(v1, v2, bnd, m) && (atomic ==> m.holder == Nobody)
  {
    hide Inv, Step;
    if schedule == [] {
      BeginInv(v1, v2, bnd);
    } else {
      RunKeeps(v1, v2, bnd, atomic, schedule[..|schedule| - 1]);
      InvCovers(v1, v2, bnd, Run(v1, v2, bnd, atomic, schedule[..|schedule| - 1]));
      StepKeeps(v1, v2, bnd, atomic, Run(v1, v2, bnd, atomic, schedule[..|schedule| - 1]), schedule[|schedule| - 1]);
    }
  }

  lemma InvCovers(v1: seq<int>, v2: seq<int>, bnd: seq<int>, m: Machine)
    requires |v1| == |v2| && Inv(v1, v2, bnd, m)
    ensures Covers(bnd, |m.threads|, |v1|)
  {
  }

  lemma BeginInv(v1: seq<int>, v2: seq<int>, bnd: seq<int>)
    requires |v1| == |v2| && |bnd| > 0 && Covers(bnd, |bnd| - 1, |v1|)
    ensures Inv(v1, v2, bnd, Begin(bnd)) && Begin(bnd).holder == Nobody
  {
    OwingAll(v1, v2, bnd, Begin(bnd).threads, |bnd| - 1);
  }

  /** In whatever order the threads take their steps and make their additions, with the mutex or with atomic
      additions: once all are done, the result is the sequential dot product. */
  lemma AnyOrderSameResult(v1: seq<int>, v2: seq<int>, bnd: seq<int>, atomic: bool, schedule: seq<nat>)
    requires |v1| == |v2| && |bnd| > 0 && Covers(bnd, |bnd| - 1, |v1|)
    requires forall t :: 0 <= t < |bnd| - 1 ==> Run(v1, v2, bnd, atomic, schedule).threads[t].at == Done
    ensures Run(v1, v2, bnd, atomic, schedule).result == Dot(v1, v2, 0, |v1|)
  {
    hide Run;
    RunKeeps(v1, v2, bnd, atomic, schedule);
    var m := Run(v1, v2, bnd, atomic, schedule);
    OwingAll(v1, v2, bnd, m.threads, |m.threads|);
  }

  /** A thread's own loop. */
  method DotProduct(v1: seq<int>, v2: seq<int>, l: nat, r: nat) returns (sum: int)
    requires |v1| == |v2| && l <= r <= |v1|
    ensures sum == Dot(v1, v2, l, r)
  {
    sum := 0;
    for i := l to r
      invariant sum == Dot(v1, v2, l, i)
    {
      sum := sum + v1[i] * v2[i];
    }
  }
}
