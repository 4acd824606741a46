/** Thread stealing: runq_steal and runq_steal_from of sched_ule.c. */
module Stealing {
  import opened Bits
  import opened StatusBits
  import opened Queues
  import opened RunQueues

  // What stealing computes, for the set e of eligible threads.

  function FirstIn<T(==)>(q: seq<T>, e: set<T>): (r: Option<T>)
    ensures r.None? <==> forall i :: 0 <= i < |q| ==> q[i] !in e
    ensures r.Some? ==> r.value in q && r.value in e
  {
    if q == [] then None else if q[0] in e then Some(q[0]) else FirstIn(q[1..], e)
  }

  // runq_steal
  function StealLinear<T(==)>(slots: seq<seq<T>>, e: set<T>): Option<T> {
    FirstIn(Flat(slots), e)
  }

  // The walk of runq_steal_from over the threads in q: the result, and the last thread passed over.
  function Walk<T(==)>(q: seq<T>, first: Option<T>, e: set<T>): (Option<T>, Option<T>) {
    if q == [] then (None, first)
    else if first.Some? && q[0] in e then (Some(q[0]), first)
    else Walk(q[1..], Some(q[0]), e)
  }

  // runq_steal_from
  function StealFrom<T(==)>(slots: seq<seq<T>>, start: nat, e: set<T>): Option<T>
    requires start <= |slots|
  {
    var (r1, f1) := Walk(Flat(slots[start..]), None, e);
    if r1.Some? then r1 else
    var (r2, f2) := if start != 0 then Walk(Flat(slots), f1, e) else (None, f1);
    if r2.Some? then r2
    else if f2.Some? && f2.value in e then f2
    else None
  }

  // runq_steal_from for any start that fits its parameter.  From 64 on the first pass has no word to look
  // at, and the second one starts in word 0 at the bit of the start.
  function StealFromAny<T(==)>(slots: seq<seq<T>>, start: nat, e: set<T>): Option<T>
    requires |slots| == RQ_NQS
  {
    if start < RQ_NQS then StealFrom(slots, start, e)
    else
      var (r, f) := Walk(Flat(slots[start % RQB_BPW..]), None, e);
      if r.Some? then r else if f.Some? && f.value in e then f else None
  }

  lemma {:induction false} WalkConcat<T>(a: seq<T>, b: seq<T>, first: Option<T>, e: set<T>)
    ensures Walk(a + b, first, e) ==
      var (r, f) := Walk(a, first, e); if r.Some? then (r, f) else Walk(b, f, e)
  {
    if a == [] {
      assert a + b == b;
    } else if first.Some? && a[0] in e {
    } else {
      assert (a + b)[1..] == a[1..] + b;
      WalkConcat(a[1..], b, Some(a[0]), e);
    }
  }

  // A walk that starts with a thread in hand finds the first eligible one.
  lemma {:induction false} WalkFinds<T>(q: seq<T>, first: Option<T>, e: set<T>)
    ensures first.Some? ==> Walk(q, first, e).0 == FirstIn(q, e)
    ensures first.None? ==> Walk(q, first, e).0 == if q == [] then None else FirstIn(q[1..], e)
    ensures Walk(q, first, e).0.None? ==> Walk(q, first, e).1 == if q == [] then first else Some(q[|q| - 1])
  {
    if q != [] && !(first.Some? && q[0] in e) {
      WalkFinds(q[1..], Some(q[0]), e);
    }
  }

  // v is the first eligible element of q.
  ghost predicate IsFirst<T>(q: seq<T>, e: set<T>, v: T) {
    exists i: nat :: FirstAt(q, e, v, i)
  }

  ghost predicate FirstAt<T>(q: seq<T>, e: set<T>, v: T, i: nat) {
    i < |q| && q[i] == v && v in e && forall j: nat :: j < i ==> q[j] !in e
  }

  lemma FirstBehind<T>(q: seq<T>, e: set<T>, v: T, i: nat)
    requires q != [] && q[0] !in e && FirstAt(q[1..], e, v, i)
    ensures FirstAt(q, e, v, i + 1)
  {
    forall j: nat | j < i + 1 ensures q[j] !in e {
      assert j > 0 ==> q[j] == q[1..][j - 1];
    }
  }

  lemma {:induction false} FirstInIsFirst<T>(q: seq<T>, e: set<T>)
    ensures FirstIn(q, e).Some? ==> IsFirst(q, e, FirstIn(q, e).value)
  {
    if q != [] && q[0] in e {
      assert FirstAt(q, e, q[0], 0);
    } else if q != [] && FirstIn(q, e).Some? {
      FirstInIsFirst(q[1..], e);
      var v := FirstIn(q, e).value;
      var i: nat :| FirstAt(q[1..], e, v, i);
      FirstBehind(q, e, v, i);
    }
  }

  // The order in which runq_steal_from meets the threads: from the start on, then all of them.
  ghost function WalkOrder<T>(slots: seq<seq<T>>, start: nat): seq<T>
    requires start <= |slots|
  {
    Flat(slots[start..]) + if start != 0 then Flat(slots) else []
  }

  // It takes the first eligible thread it meets after the very first one, else the last one it meets if
  // that is eligible.
  lemma StealFromOrder<T>(slots: seq<seq<T>>, start: nat, e: set<T>)
    requires start <= |slots|
    ensures var q, r := WalkOrder(slots, start), StealFrom(slots, start, e);
      if q == [] then r == None
      else if exists i :: 1 <= i < |q| && q[i] in e then r.Some? && IsFirst(q[1..], e, r.value)
      else r == if q[|q| - 1] in e then Some(q[|q| - 1]) else None
  {
    var q := WalkOrder(slots, start);
    WalkConcat(Flat(slots[start..]), if start != 0 then Flat(slots) else [], None, e);
    WalkFinds(q, None, e);
    if q != [] {
      FirstInIsFirst(q[1..], e);
      assert forall i :: 1 <= i < |q| ==> q[i] == q[1..][i - 1];
    }
  }

  // runq_steal finds a thread exactly when one is eligible, and it is the first in the order of the slots.
  lemma StealLinearComplete<T>(slots: seq<seq<T>>, e: set<T>)
    ensures var r := StealLinear(slots, e);
      && (r.Some? <==> exists t :: t in Members(slots) && t in e)
      && (r.Some? ==> r.value in Members(slots) && r.value in e && IsFirst(Flat(slots), e, r.value))
  {
    var q := Flat(slots);
    FirstInIsFirst(q, e);
    assert forall i :: 0 <= i < |q| ==> q[i] in Contents(slots);
    var r := StealLinear(slots, e);
    if t :| t in Members(slots) && t in e {
      assert t in q;
    }
  }

  lemma NothingBetween<T>(slots: seq<seq<T>>, start: nat, q: nat)
    requires |slots| == RQ_NQS && start <= q < RQ_NQS
    requires var p := FirstFrom(slots, start, 0); p < start || q < p
    ensures slots[q] == []
  {
    FirstFromIsNearest(slots, start, 0);
    assert Dist(start, q) == q - start;
  }

  // The slots from start on hold a thread when the search does not wrap, and its result comes first.
  lemma FirstOfFlat<T>(slots: seq<seq<T>>, start: nat)
    requires |slots| == RQ_NQS && start < RQ_NQS
    ensures var p := FirstFrom(slots, start, 0);
      if p >= start then
        p < RQ_NQS && slots[p] != [] && Flat(slots[start..]) != [] && Flat(slots[start..])[0] == slots[p][0]
      else Flat(slots[start..]) == []
  {
    if FirstFrom(slots, start, 0) >= start {
      FirstOfTail(slots, start);
    } else {
      TailEmpty(slots, start);
    }
  }

  lemma FirstOfTail<T>(slots: seq<seq<T>>, start: nat)
    requires |slots| == RQ_NQS && start < RQ_NQS && FirstFrom(slots, start, 0) >= start
    ensures var p := FirstFrom(slots, start, 0);
      p < RQ_NQS && slots[p] != [] && Flat(slots[start..]) != [] && Flat(slots[start..])[0] == slots[p][0]
  {
    var p := FirstFrom(slots, start, 0);
    FirstFromIsNearest(slots, start, 0);
    forall q | start <= q < p ensures slots[q] == [] { NothingBetween(slots, start, q); }
    FirstOfFlatBehind(slots, start, p);
  }

  lemma FirstOfFlatBehind<T>(slots: seq<seq<T>>, start: nat, p: nat)
    requires start <= p < |slots| && slots[p] != []
    requires forall q :: start <= q < p ==> slots[q] == []
    ensures Flat(slots[start..]) != [] && Flat(slots[start..])[0] == slots[p][0]
  {
    var tail := slots[start..];
    assert tail[p - start] == slots[p];
    FirstOfFlatAt(tail, p - start);
  }

  lemma TailEmpty<T>(slots: seq<seq<T>>, start: nat)
    requires |slots| == RQ_NQS && start < RQ_NQS && FirstFrom(slots, start, 0) < start
    ensures Flat(slots[start..]) == []
  {
    var tail := slots[start..];
    forall q | 0 <= q < |tail| ensures tail[q] == [] { NothingBetween(slots, start, start + q); }
    AllEmpty(tail);
  }

  lemma FirstOfFlatAt<T>(slots: seq<seq<T>>, p: nat)
    requires p < |slots| && slots[p] != []
    requires forall q :: 0 <= q < p ==> slots[q] == []
    ensures Flat(slots) != [] && Flat(slots)[0] == slots[p][0]
  {
    FlatSplit(slots, p);
    AllEmpty(slots[..p]);
  }

  // One walk over everything, starting empty-handed, then the last look at the thread in hand.
  lemma OneWalk<T>(all: seq<T>, e: set<T>)
    requires all != []
    ensures var (r, f) := Walk(all, None, e);
      var s := if r.Some? then r else if f.Some? && f.value in e then f else None;
      && (s.Some? ==> s.value in all && s.value in e)
      && (s.Some? <==> (exists i :: 1 <= i < |all| && all[i] in e) || (|all| == 1 && all[0] in e))
  {
    WalkFinds(all, None, e);
    var tail := all[1..];
    assert forall i :: 1 <= i < |all| ==> all[i] == tail[i - 1];
  }

  // A second walk over everything, with a thread in hand, misses nothing.
  lemma TwoWalks<T>(tail: seq<T>, all: seq<T>, e: set<T>)
    requires tail != [] && forall t :: t in tail ==> t in all
    ensures var (r1, f1) := Walk(tail, None, e);
      var (r2, f2) := Walk(all, f1, e);
      var s := if r1.Some? then r1 else if r2.Some? then r2 else if f2.Some? && f2.value in e then f2 else None;
      && (s.Some? ==> s.value in all && s.value in e)
      && (s.Some? <==> exists t :: t in all && t in e)
  {
    WalkFinds(tail, None, e);
    var (r1, f1) := Walk(tail, None, e);
    WalkFinds(all, f1, e);
    if r1.Some? {
      assert r1.value in tail[1..];
      assert r1.value in tail;
    }
  }

  lemma HeadOnce<T>(all: seq<T>, e: set<T>)
    requires all != [] && multiset(all)[all[0]] == 1
    ensures (exists i :: 1 <= i < |all| && all[i] in e) <==> (exists t :: t in all && t in e && t != all[0])
  {
    assert all == [all[0]] + all[1..];
    assert all[0] !in multiset(all[1..]);
    assert forall i :: 1 <= i < |all| ==> all[i] in all[1..];
  }

  // The scan of runq_steal_from looks at the head: it is alone, or the first pass has met it.
  ghost predicate HeadAgain<T>(slots: seq<seq<T>>, start: nat)
    requires |slots| == RQ_NQS && start < RQ_NQS
  {
    |Contents(slots)| == 1 || (start != 0 && FirstFrom(slots, start, 0) >= start)
  }

  // runq_steal_from never returns a thread that is not queued or not eligible, and misses an eligible
  // thread only when that is the very thread runq_choose_from would return, others are queued with it,
  // and the scan does not meet it a second time.
  lemma StealFromComplete<T>(slots: seq<seq<T>>, start: nat, e: set<T>, head: T)
    requires |slots| == RQ_NQS && start < RQ_NQS
    requires ChooseFrom(slots, start) == Some(head)
    requires Contents(slots)[head] == 1
    ensures var r := StealFrom(slots, start, e);
      && (r.Some? ==> r.value in Members(slots) && r.value in e)
      && (r.Some? <==>
            || (exists t :: t in Members(slots) && t in e && t != head)
            || (head in e && HeadAgain(slots, start)))
  {
    var all, tail := Flat(slots), Flat(slots[start..]);
    SplitAt(slots, start, head);
    assert forall t :: t in all <==> t in Members(slots);
    if tail != [] && start != 0 {
      TwoWalks(tail, all, e);
    } else {
      OneWalk(all, e);
      HeadOnce(all, e);
    }
  }

  // Where the chosen thread stands in the order of the walk.
  lemma SplitAt<T>(slots: seq<seq<T>>, start: nat, head: T)
    requires |slots| == RQ_NQS && start < RQ_NQS
    requires ChooseFrom(slots, start) == Some(head)
    ensures var all, tail := Flat(slots), Flat(slots[start..]);
      && all != []
      && (tail != [] <==> FirstFrom(slots, start, 0) >= start)
      && (if tail == [] then all[0] == head else tail[0] == head)
      && (start == 0 ==> tail == all)
      && (forall t :: t in tail ==> t in all)
  {
    var all, tail := Flat(slots), Flat(slots[start..]);
    FirstOfFlat(slots, start);
    TailOfFlat(slots, start);
    if tail == [] {
      WrappedHead(slots, start);
    }
  }

  lemma TailOfFlat<T>(slots: seq<seq<T>>, start: nat)
    requires start <= |slots|
    ensures Flat(slots) == Flat(slots[..start]) + Flat(slots[start..])
    ensures start == 0 ==> Flat(slots[start..]) == Flat(slots)
  {
    assert slots == slots[..start] + slots[start..];
    FlatConcat(slots[..start], slots[start..]);
  }

  // When the search wraps, its result is the first thread of the whole queue.
  lemma WrappedHead<T>(slots: seq<seq<T>>, start: nat)
    requires |slots| == RQ_NQS && start < RQ_NQS
    requires var p := FirstFrom(slots, start, 0); 0 <= p < start
    ensures var p := FirstFrom(slots, start, 0); slots[p] != [] && Flat(slots) != [] && Flat(slots)[0] == slots[p][0]
  {
    FirstFromIsNearest(slots, start, 0);
    var p := FirstFrom(slots, start, 0);
    forall q | 0 <= q < p ensures slots[q] == [] {
      assert Dist(start, q) == q + RQ_NQS - start;
    }
    FirstOfFlatAt(slots, p);
  }

  // The head may go, the thread behind it may not: nothing is stolen.
  lemma HeadMissed() returns (slots: seq<seq<nat>>, e: set<nat>)
    ensures |slots| == RQ_NQS && ChooseFrom(slots, 0) == Some(1)
    ensures Contents(slots) == multiset{1, 2} && e == {1} && StealFrom(slots, 0, e) == None
  {
    var rest: seq<seq<nat>> := seq(RQ_NQS - 1, _ => []);
    slots, e := [[1, 2]] + rest, {1};
    AllEmpty(rest);
    assert slots[1..] == rest && slots[0..] == slots;
    assert Flat(slots) == [1, 2];
    NearestIsFirstFrom(slots, 0, 0, 0);
  }

  lemma NoneToSteal<T>(slots: seq<seq<T>>, start: nat, e: set<T>)
    requires start <= |slots| && forall p :: 0 <= p < |slots| ==> slots[p] == []
    ensures StealFrom(slots, start, e) == None
  {
    AllEmpty(slots);
    AllEmpty(slots[start..]);
  }

  // The C code, over a queue of thread objects.

  ghost function Ptr(t: Thread?): Option<Thread> {
    if t == null then None else Some(t)
  }

  // THREAD_CAN_MIGRATE and THREAD_CAN_SCHED
  predicate CanSteal(td: Thread, cpu: nat) {
    td.pinned == 0 && cpu in td.cpuset
  }

  ghost function Eligible(rq: Runq, cpu: nat): set<Thread>
    reads rq
  {
    set t | t in rq.Threads() && CanSteal(t, cpu)
  }

  // The same computations, slot by slot from slot p on.

  function WalkOn<T(==)>(slots: seq<seq<T>>, p: nat, first: Option<T>, e: set<T>): (Option<T>, Option<T>)
    requires p <= |slots|
    decreases |slots| - p
  {
    if p == |slots| then (None, first)
    else
      var (r, f) := Walk(slots[p], first, e);
      if r.Some? then (r, f) else WalkOn(slots, p + 1, f, e)
  }

  function StealOn<T(==)>(slots: seq<seq<T>>, p: nat, e: set<T>): Option<T>
    requires p <= |slots|
    decreases |slots| - p
  {
    if p == |slots| then None
    else
      var r := FirstIn(slots[p], e);
      if r.Some? then r else StealOn(slots, p + 1, e)
  }

  lemma {:induction false} WalkOnIsWalk<T>(slots: seq<seq<T>>, p: nat, first: Option<T>, e: set<T>)
    requires p <= |slots|
    ensures WalkOn(slots, p, first, e) == Walk(Flat(slots[p..]), first, e)
    decreases |slots| - p
  {
    if p < |slots| {
      assert slots[p..][0] == slots[p] && slots[p..][1..] == slots[p + 1..];
      WalkConcat(slots[p], Flat(slots[p + 1..]), first, e);
      WalkOnIsWalk(slots, p + 1, Walk(slots[p], first, e).1, e);
    }
  }

  lemma {:induction false} StealOnIsSteal<T>(slots: seq<seq<T>>, p: nat, e: set<T>)
    requires p <= |slots|
    ensures StealOn(slots, p, e) == StealLinear(slots[p..], e)
    decreases |slots| - p
  {
    if p < |slots| {
      assert slots[p..][0] == slots[p] && slots[p..][1..] == slots[p + 1..];
      FirstInConcat(slots[p], Flat(slots[p + 1..]), e);
      StealOnIsSteal(slots, p + 1, e);
    }
  }

  lemma {:induction false} FirstInConcat<T>(a: seq<T>, b: seq<T>, e: set<T>)
    ensures FirstIn(a + b, e) == var r := FirstIn(a, e); if r.Some? then r else FirstIn(b, e)
  {
    if a == [] {
      assert a + b == b;
    } else {
      assert (a + b)[1..] == a[1..] + b;
      FirstInConcat(a[1..], b, e);
    }
  }

  // Empty slots change nothing.
  lemma {:induction false} SkipEmpty<T>(slots: seq<seq<T>>, p: nat, p': nat, first: Option<T>, e: set<T>)
    requires p <= p' <= |slots|
    requires forall q :: p <= q < p' ==> slots[q] == []
    ensures WalkOn(slots, p, first, e) == WalkOn(slots, p', first, e)
    ensures StealOn(slots, p, e) == StealOn(slots, p', e)
    decreases p' - p
  {
    if p < p' {
      SkipEmpty(slots, p + 1, p', first, e);
    }
  }

  // The scans read the status words and the slots; e holds the eligible threads.
  ghost predicate Scans(words: seq<Word>, slots: seq<seq<Thread>>, cpu: nat, e: set<Thread>) {
    && BitsMatch(words, slots)
    && forall t :: t in Members(slots) ==> (t in e <==> CanSteal(t, cpu))
  }

  lemma StartScan(rq: Runq, cpu: nat)
    requires rq.Valid()
    ensures Scans(rq.bits[..], rq.Slots(), cpu, Eligible(rq, cpu))
  {
    MembersAreKeys(rq.Slots(), rq.placed);
  }

  // Slots k up to k' of word i are empty when their bits are clear.
  lemma SkipBits<T>(words: seq<Word>, slots: seq<seq<T>>, i: nat, k: nat, k': nat, first: Option<T>, e: set<T>)
    requires BitsMatch(words, slots) && i < RQB_LEN && k <= k' <= RQB_BPW
    requires forall j :: k <= j < k' ==> !words[i][j]
    ensures WalkOn(slots, RQB_BPW * i + k, first, e) == WalkOn(slots, RQB_BPW * i + k', first, e)
    ensures StealOn(slots, RQB_BPW * i + k, e) == StealOn(slots, RQB_BPW * i + k', e)
  {
    forall q | RQB_BPW * i + k <= q < RQB_BPW * i + k' ensures slots[q] == [] {
      WordBit(words, i, q - RQB_BPW * i);
    }
    SkipEmpty(slots, RQB_BPW * i + k, RQB_BPW * i + k', first, e);
  }

  // The TAILQ_FOREACH of runq_steal_from.
  method WalkSlot(q: seq<Thread>, cpu: nat, first: Thread?, ghost e: set<Thread>)
    returns (td: Thread?, last: Thread?)
    requires forall t :: t in q ==> (t in e <==> CanSteal(t, cpu))
    ensures (Ptr(td), Ptr(last)) == Walk(q, Ptr(first), e)
  {
    last := first;
    var i := 0;
    while i < |q|
      invariant 0 <= i <= |q|
      invariant Walk(q, Ptr(first), e) == Walk(q[i..], Ptr(last), e)
    {
      td := q[i];
      if last != null && CanSteal(td, cpu) {
        return;
      }
      last := td;
      i := i + 1;
    }
    td := null;
  }

  lemma InSlot<T>(slots: seq<seq<T>>, p: nat)
    requires p < |slots|
    ensures forall t :: t in slots[p] ==> t in Members(slots)
  {
    forall t | t in slots[p] ensures t in Members(slots) {
      InFlat(slots, t);
      assert t in Contents(slots);
    }
  }

  // The bit loop of runq_steal_from, from a bit of word i to the end of the word.
  method WalkWord(words: seq<Word>, slots: seq<seq<Thread>>, i: nat, start: nat, cpu: nat, first: Thread?,
                  ghost e: set<Thread>)
    returns (td: Thread?, last: Thread?)
    requires Scans(words, slots, cpu, e) && i < RQB_LEN && start < RQB_BPW
    ensures var goal := WalkOn(slots, RQB_BPW * i + start, Ptr(first), e);
      goal == if td != null then (Ptr(td), Ptr(last)) else WalkOn(slots, RQB_BPW * i + RQB_BPW, Ptr(last), e)
  {
    ghost var goal := WalkOn(slots, RQB_BPW * i + start, Ptr(first), e);
    last := first;
    var bit := start;
    while bit < RQB_BPW
      invariant start <= bit <= RQB_BPW
      invariant goal == WalkOn(slots, RQB_BPW * i + bit, Ptr(last), e)
    {
      WordBit(words, i, bit);
      if words[i][bit] {
        InSlot(slots, bit + RQB_BPW * i);
        td, last := WalkSlot(slots[bit + RQB_BPW * i], cpu, last, e);
        if td != null {
          return;
        }
      }
      bit := bit + 1;
    }
    td := null;
  }

  // A scan of a whole non-zero word starts at its first set bit.
  method FirstBit<T>(words: seq<Word>, ghost slots: seq<seq<T>>, i: nat, start: nat, ghost first: Option<T>,
                     ghost e: set<T>)
    returns (bit: nat)
    requires BitsMatch(words, slots) && i < RQB_LEN && start < RQB_BPW && words[i] != ZERO
    ensures bit < RQB_BPW
    ensures WalkOn(slots, RQB_BPW * i + start, first, e) == WalkOn(slots, RQB_BPW * i + bit, first, e)
  {
    bit := start;
    if bit == 0 {
      bit := FindFirstSet(words[i]);
      SkipBits(words, slots, i, start, bit, first, e);
    }
  }

  // The body of the word loop.
  method WalkWholeWord(words: seq<Word>, slots: seq<seq<Thread>>, i: nat, start: nat, cpu: nat, first: Thread?,
                       ghost e: set<Thread>)
    returns (td: Thread?, last: Thread?)
    requires Scans(words, slots, cpu, e) && i < RQB_LEN && start < RQB_BPW
    ensures var goal := WalkOn(slots, RQB_BPW * i + start, Ptr(first), e);
      goal == if td != null then (Ptr(td), Ptr(last)) else WalkOn(slots, RQB_BPW * i + RQB_BPW, Ptr(last), e)
  {
    if words[i] == ZERO {
      SkipBits(words, slots, i, start, RQB_BPW, Ptr(first), e);
      return null, first;
    }
    var bit := FirstBit(words, slots, i, start, Ptr(first), e);
    td, last := WalkWord(words, slots, i, bit, cpu, first, e);
  }

  // One pass of runq_steal_from, over the slots from start to the end.
  method WalkFrom(words: seq<Word>, slots: seq<seq<Thread>>, start: nat, cpu: nat, first: Thread?, ghost e: set<Thread>)
    returns (td: Thread?, last: Thread?)
    requires Scans(words, slots, cpu, e) && start < RQ_NQS
    ensures (Ptr(td), Ptr(last)) == WalkOn(slots, start, Ptr(first), e)
  {
    last := first;
    var i: nat, bit: nat := start / RQB_BPW, start % RQB_BPW;
    ghost var goal := WalkOn(slots, start, Ptr(first), e);
    while i < RQB_LEN
      invariant i <= RQB_LEN && bit < RQB_BPW && RQB_BPW * i + bit <= RQ_NQS
      invariant goal == WalkOn(slots, RQB_BPW * i + bit, Ptr(last), e)
    {
      td, last := WalkWholeWord(words, slots, i, bit, cpu, last, e);
      if td != null {
        return;
      }
      bit, i := 0, i + 1;
    }
    td := null;
  }

  // The thread left in hand by a fruitless walk is a queued one.
  lemma InHand<T>(slots: seq<seq<T>>, start: nat, first: Option<T>, e: set<T>)
    requires start <= |slots| && (first.Some? ==> first.value in Members(slots))
    ensures var (r, f) := Walk(Flat(slots[start..]), first, e); r.None? && f.Some? ==> f.value in Members(slots)
  {
    var q := Flat(slots[start..]);
    WalkFinds(q, first, e);
    FlatConcat(slots[..start], slots[start..]);
    assert slots == slots[..start] + slots[start..];
    assert q != [] ==> q[|q| - 1] in Contents(slots);
  }

  // How the passes make up the result, and that the thread in hand is a queued one.
  lemma Passes<T>(slots: seq<seq<T>>, start: nat, e: set<T>, w1: (Option<T>, Option<T>), w2: (Option<T>, Option<T>))
    requires start <= |slots|
    requires w1 == WalkOn(slots, start, None, e)
    requires w2 == if start != 0 then WalkOn(slots, 0, w1.1, e) else (None, w1.1)
    ensures w1.0.Some? ==> StealFrom(slots, start, e) == w1.0
    ensures w1.0.None? && w2.0.Some? ==> StealFrom(slots, start, e) == w2.0
    ensures w1.0.None? && w2.0.None? ==>
      && (w2.1.Some? ==> w2.1.value in Members(slots))
      && StealFrom(slots, start, e) == if w2.1.Some? && w2.1.value in e then w2.1 else None
  {
    assert slots[0..] == slots;
    WalkOnIsWalk(slots, start, None, e);
    WalkOnIsWalk(slots, 0, w1.1, e);
    InHand(slots, start, None, e);
    if w1.0.None? { InHand(slots, 0, w1.1, e); }
  }

  // runq_steal_from
  method RunqStealFrom(rq: Runq, cpu: nat, start: nat) returns (td: Thread?)
    requires rq.Valid() && start < 256
    ensures Ptr(td) == StealFromAny(rq.Slots(), start, Eligible(rq, cpu))
  {
    StartScan(rq, cpu);
    if start / RQB_BPW < RQB_LEN {
      td := StealFromSlots(rq.bits[..], rq.queues[..], cpu, start, Eligible(rq, cpu));
    } else {
      td := StealFromBit(rq.bits[..], rq.queues[..], cpu, start % RQB_BPW, Eligible(rq, cpu));
    }
  }

  // The passes where the first finds no word: only the second runs, from a bit of word 0.
  method StealFromBit(words: seq<Word>, slots: seq<seq<Thread>>, cpu: nat, bit: nat, ghost e: set<Thread>)
    returns (td: Thread?)
    requires Scans(words, slots, cpu, e) && bit < RQB_BPW
    ensures var (r, f) := Walk(Flat(slots[bit..]), None, e);
      Ptr(td) == if r.Some? then r else if f.Some? && f.value in e then f else None
  {
    WalkOnIsWalk(slots, bit, None, e);
    InHand(slots, bit, None, e);
    var first: Thread?;
    td, first := WalkFrom(words, slots, bit, cpu, null, e);
    if td == null && first != null && CanSteal(first, cpu) {
      td := first;
    }
  }

  method StealFromSlots(words: seq<Word>, slots: seq<seq<Thread>>, cpu: nat, start: nat, ghost e: set<Thread>)
    returns (td: Thread?)
    requires Scans(words, slots, cpu, e) && start < RQ_NQS
    ensures Ptr(td) == StealFrom(slots, start, e)
  {
    ghost var w1 := WalkOn(slots, start, Ptr(null), e);
    ghost var w2 := if start != 0 then WalkOn(slots, 0, w1.1, e) else (None, w1.1);
    Passes(slots, start, e, w1, w2);
    var first: Thread?;
    td, first := WalkFrom(words, slots, start, cpu, null, e);
    if td != null {
      return;
    }
    if start != 0 {
      td, first := WalkFrom(words, slots, 0, cpu, first, e);
      if td != null {
        return;
      }
    }
    if first != null && CanSteal(first, cpu) {
      return first;
    }
  }

  // runq_steal
  method RunqSteal(rq: Runq, cpu: nat) returns (td: Thread?)
    requires rq.Valid()
    ensures Ptr(td) == StealLinear(rq.Slots(), Eligible(rq, cpu))
  {
    StartScan(rq, cpu);
    StealOnIsSteal(rq.Slots(), 0, Eligible(rq, cpu));
    assert rq.Slots()[0..] == rq.Slots();
    td := StealSlots(rq.bits[..], rq.queues[..], cpu, Eligible(rq, cpu));
  }

  method StealSlots(words: seq<Word>, slots: seq<seq<Thread>>, cpu: nat, ghost e: set<Thread>) returns (td: Thread?)
    requires Scans(words, slots, cpu, e)
    ensures Ptr(td) == StealOn(slots, 0, e)
  {
    var word: nat := 0;
    while word < RQB_LEN
      invariant word <= RQB_LEN
      invariant StealOn(slots, 0, e) == StealOn(slots, RQB_BPW * word, e)
    {
      if words[word] == ZERO {
        SkipBits(words, slots, word, 0, RQB_BPW, None, e);
      } else {
        td := StealWord(words, slots, word, cpu, e);
        if td != null {
          return;
        }
      }
      word := word + 1;
    }
    td := null;
  }

  // The bit loop of runq_steal.
  method StealWord(words: seq<Word>, slots: seq<seq<Thread>>, word: nat, cpu: nat, ghost e: set<Thread>)
    returns (td: Thread?)
    requires Scans(words, slots, cpu, e) && word < RQB_LEN
    ensures StealOn(slots, RQB_BPW * word, e) ==
      if td != null then Some(td) else StealOn(slots, RQB_BPW * word + RQB_BPW, e)
  {
    ghost var goal := StealOn(slots, RQB_BPW * word, e);
    var bit := 0;
    while bit < RQB_BPW
      invariant 0 <= bit <= RQB_BPW
      invariant goal == StealOn(slots, RQB_BPW * word + bit, e)
    {
      WordBit(words, word, bit);
      if words[word][bit] {
        InSlot(slots, bit + RQB_BPW * word);
        td := StealSlot(slots[bit + RQB_BPW * word], cpu, e);
        if td != null {
          return;
        }
      }
      bit := bit + 1;
    }
    td := null;
  }

  // The TAILQ_FOREACH of runq_steal.
  method StealSlot(q: seq<Thread>, cpu: nat, ghost e: set<Thread>) returns (td: Thread?)
    requires forall t :: t in q ==> (t in e <==> CanSteal(t, cpu))
    ensures Ptr(td) == FirstIn(q, e)
  {
    var i := 0;
    while i < |q|
      invariant 0 <= i <= |q|
      invariant FirstIn(q, e) == FirstIn(q[i..], e)
    {
      td := q[i];
      if CanSteal(td, cpu) {
        return;
      }
      i := i + 1;
    }
    td := null;
  }
}
