/** The value of a run queue: RQ_NQS FIFO slots, and what insertion, removal and search do to them. */
module Queues {
  const RQ_NQS: nat := 64
  const RQ_PPQ: nat := 4

  datatype Option<+T> = None | Some(value: T)

  // All queued elements, slot after slot.
  function Flat<T>(slots: seq<seq<T>>): seq<T> {
    if slots == [] then [] else slots[0] + Flat(slots[1..])
  }

  function Contents<T>(slots: seq<seq<T>>): multiset<T> {
    multiset(Flat(slots))
  }

  function InsertAt<T>(q: seq<T>, pos: nat, t: T): seq<T>
    requires pos <= |q|
  {
    q[..pos] + [t] + q[pos..]
  }

  function Without<T(==)>(q: seq<T>, t: T): seq<T> {
    if q == [] then []
    else if q[0] == t then q[1..]
    else [q[0]] + Without(q[1..], t)
  }

  function Put<T>(slots: seq<seq<T>>, p: nat, pos: nat, t: T): seq<seq<T>>
    requires p < |slots| && pos <= |slots[p]|
  {
    slots[p := InsertAt(slots[p], pos, t)]
  }

  function Take<T(==)>(slots: seq<seq<T>>, p: nat, t: T): seq<seq<T>>
    requires p < |slots|
  {
    slots[p := Without(slots[p], t)]
  }

  function Dist(start: nat, p: nat): nat
    requires start < RQ_NQS && p < RQ_NQS
  {
    if start <= p then p - start else p + RQ_NQS - start
  }

  // The slot k steps forward from start, cyclically.
  function Ahead(start: nat, k: nat): (p: nat)
    requires start < RQ_NQS && k < RQ_NQS
    ensures p < RQ_NQS && Dist(start, p) == k && p == (start + k) % RQ_NQS
  {
    if start + k < RQ_NQS then start + k else start + k - RQ_NQS
  }

  // The first non-empty slot met when walking k, k+1, ... steps forward from start, or -1.
  function FirstFrom<T(==)>(slots: seq<seq<T>>, start: nat, k: nat): (r: int)
    requires |slots| == RQ_NQS && start < RQ_NQS
    ensures r == -1 || (0 <= r < RQ_NQS && slots[r] != [])
    decreases RQ_NQS - k
  {
    if k >= RQ_NQS then -1
    else if slots[Ahead(start, k)] != [] then Ahead(start, k)
    else FirstFrom(slots, start, k + 1)
  }

  // What runq_findbit_from returns.  A start outside the queue skips the slots below start % 32
  // and does not wrap back to them.
  function FindFrom<T(==)>(slots: seq<seq<T>>, start: nat): int
    requires |slots| == RQ_NQS
  {
    if start < RQ_NQS then FirstFrom(slots, start, 0)
    else
      var r := FirstFrom(slots, start % 32, 0);
      if r >= start % 32 then r else -1
  }

  // The head of slot p, if there is one.
  function FirstOf<T>(slots: seq<seq<T>>, p: int): Option<T> {
    if 0 <= p < |slots| && slots[p] != [] then Some(slots[p][0]) else None
  }

  // runq_choose_from; runq_choose is the search from slot 0.
  function ChooseFrom<T(==)>(slots: seq<seq<T>>, start: nat): Option<T>
    requires |slots| == RQ_NQS && start < RQ_NQS
  {
    FirstFromIsNearest(slots, start, 0);
    var p := FirstFrom(slots, start, 0);
    if p == -1 then None else Some(slots[p][0])
  }

  // The search finds the cyclically nearest non-empty slot, and fails only on an empty queue.
  lemma {:induction false} FirstFromIsNearest<T>(slots: seq<seq<T>>, start: nat, k: nat)
    requires |slots| == RQ_NQS && start < RQ_NQS && k <= RQ_NQS
    ensures var r := FirstFrom(slots, start, k);
      && (r == -1 || (0 <= r < RQ_NQS && slots[r] != [] && Dist(start, r) >= k))
      && (forall p :: 0 <= p < RQ_NQS && slots[p] != [] && Dist(start, p) >= k ==>
            r != -1 && Dist(start, r) <= Dist(start, p))
    decreases RQ_NQS - k
  {
    if k < RQ_NQS {
      FirstFromIsNearest(slots, start, k + 1);
      forall p | 0 <= p < RQ_NQS && Dist(start, p) == k ensures p == Ahead(start, k) {}
    }
  }

  lemma {:induction false} NearestIsFirstFrom<T>(slots: seq<seq<T>>, start: nat, k: nat, r: nat)
    requires |slots| == RQ_NQS && start < RQ_NQS && k <= RQ_NQS
    requires r < RQ_NQS && slots[r] != [] && Dist(start, r) >= k
    requires forall p :: 0 <= p < RQ_NQS && slots[p] != [] ==> Dist(start, r) <= Dist(start, p)
    ensures FirstFrom(slots, start, k) == r
    decreases RQ_NQS - k
  {
    FirstFromIsNearest(slots, start, k);
    var f := FirstFrom(slots, start, k);
    assert Dist(start, f) == Dist(start, r);
  }

  lemma {:induction false} FlatConcat<T>(a: seq<seq<T>>, b: seq<seq<T>>)
    ensures Flat(a + b) == Flat(a) + Flat(b)
  {
    if a == [] {
      assert a + b == b;
    } else {
      FlatConcat(a[1..], b);
      assert (a + b)[1..] == a[1..] + b;
      Regroup(a[0], Flat(a[1..]), Flat(b));
    }
  }

  lemma Regroup<T>(p: seq<T>, q: seq<T>, r: seq<T>)
    ensures p + (q + r) == p + q + r
  {
  }

  lemma {:induction false} FlatUpdate<T>(slots: seq<seq<T>>, p: nat, q: seq<T>)
    requires p < |slots|
    ensures Flat(slots[p := q]) == Flat(slots[..p]) + q + Flat(slots[p + 1..])
  {
    assert slots[p := q] == slots[..p] + ([q] + slots[p + 1..]);
    FlatConcat(slots[..p], [q] + slots[p + 1..]);
    assert ([q] + slots[p + 1..])[1..] == slots[p + 1..];
  }

  lemma FlatSplit<T>(slots: seq<seq<T>>, p: nat)
    requires p < |slots|
    ensures Flat(slots) == Flat(slots[..p]) + slots[p] + Flat(slots[p + 1..])
  {
    FlatUpdate(slots, p, slots[p]);
    assert slots[p := slots[p]] == slots;
  }

  lemma {:induction false} InFlat<T>(slots: seq<seq<T>>, t: T)
    ensures t in Flat(slots) <==> exists p :: 0 <= p < |slots| && t in slots[p]
  {
    if slots != [] {
      InFlat(slots[1..], t);
      assert forall p :: 0 <= p < |slots| - 1 ==> slots[1..][p] == slots[p + 1];
      assert forall p :: 0 < p < |slots| ==> slots[p] == slots[1..][p - 1];
    }
  }

  // Insertion adds exactly one element and removal takes exactly one away.
  lemma PutContents<T>(slots: seq<seq<T>>, p: nat, pos: nat, t: T)
    requires p < |slots| && pos <= |slots[p]|
    ensures Contents(Put(slots, p, pos, t)) == Contents(slots) + multiset{t}
  {
    FlatUpdate(slots, p, InsertAt(slots[p], pos, t));
    FlatSplit(slots, p);
    assert slots[p] == slots[p][..pos] + slots[p][pos..];
  }

  lemma {:induction false} WithoutAt<T>(q: seq<T>, t: T, k: nat)
    requires k < |q| && q[k] == t && t !in q[..k]
    ensures Without(q, t) == q[..k] + q[k + 1..]
  {
    if k > 0 {
      assert q[0] in q[..k];
      assert q[1..][..k - 1] == q[..k][1..];
      WithoutAt(q[1..], t, k - 1);
      assert q[..k] + q[k + 1..] == [q[0]] + (q[1..][..k - 1] + q[1..][k..]);
    }
  }

  lemma {:induction false} FirstIndex<T>(q: seq<T>, t: T) returns (k: nat)
    requires t in q
    ensures k < |q| && q[k] == t && t !in q[..k]
  {
    if q[0] == t {
      k := 0;
    } else {
      var j := FirstIndex(q[1..], t);
      k := j + 1;
      assert q[..k] == [q[0]] + q[1..][..j];
    }
  }

  lemma TakeContents<T>(slots: seq<seq<T>>, p: nat, t: T)
    requires p < |slots| && t in slots[p]
    ensures Contents(Take(slots, p, t)) == Contents(slots) - multiset{t}
    ensures t in Contents(slots)
  {
    var k := FirstIndex(slots[p], t);
    WithoutAt(slots[p], t, k);
    FlatUpdate(slots, p, Without(slots[p], t));
    FlatSplit(slots, p);
    assert slots[p] == slots[p][..k] + [t] + slots[p][k + 1..];
  }

  ghost predicate NoDup<T>(q: seq<T>) {
    forall i, j :: 0 <= i < j < |q| ==> q[i] != q[j]
  }

  ghost function Members<T>(slots: seq<seq<T>>): set<T> {
    set t | t in Contents(slots)
  }

  ghost predicate Indexes<T>(slots: seq<seq<T>>, idx: map<T, nat>) {
    forall p, t :: 0 <= p < |slots| && t in slots[p] ==> t in idx && idx[t] == p
  }

  // The index map idx (td_rqindex of the queued elements) and the slots agree: every element is queued
  // once, in the slot its index names, and nothing else is queued.
  ghost predicate Placed<T>(slots: seq<seq<T>>, idx: map<T, nat>) {
    && Indexes(slots, idx)
    && (forall t :: t in idx ==> idx[t] < |slots| && t in slots[idx[t]])
    && (forall p :: 0 <= p < |slots| ==> NoDup(slots[p]))
  }

  lemma MembersAreKeys<T>(slots: seq<seq<T>>, idx: map<T, nat>)
    requires Placed(slots, idx)
    ensures Members(slots) == idx.Keys
  {
    forall t | t in Members(slots) ensures t in idx.Keys {
      assert t in Contents(slots);
      InFlat(slots, t);
    }
    forall t | t in idx.Keys ensures t in Members(slots) {
      assert t in slots[idx[t]];
      InFlat(slots, t);
      assert t in Contents(slots);
    }
  }

  lemma CountOnce<T>(q: seq<T>, t: T)
    requires NoDup(q) && t in q
    ensures multiset(q)[t] == 1
  {
    var k := FirstIndex(q, t);
    assert q == q[..k] + [t] + q[k + 1..];
    assert t !in q[k + 1..];
  }

  lemma NotElsewhere<T>(slots: seq<seq<T>>, idx: map<T, nat>, t: T)
    requires Placed(slots, idx) && t in idx
    ensures t !in Flat(slots[..idx[t]]) && t !in Flat(slots[idx[t] + 1..])
  {
    var p := idx[t];
    InFlat(slots[..p], t);
    InFlat(slots[p + 1..], t);
    assert forall q {:trigger slots[p + 1..][q]} :: 0 <= q < |slots| - p - 1 ==> slots[p + 1..][q] == slots[p + 1 + q];
  }

  // No thread is queued twice anywhere.
  lemma QueuedOnce<T>(slots: seq<seq<T>>, idx: map<T, nat>, t: T)
    requires Placed(slots, idx) && t in idx
    ensures Contents(slots)[t] == 1
  {
    var p := idx[t];
    FlatSplit(slots, p);
    CountOnce(slots[p], t);
    NotElsewhere(slots, idx, t);
  }

  lemma ContentsAreKeys<T>(slots: seq<seq<T>>, idx: map<T, nat>)
    requires Placed(slots, idx)
    ensures Contents(slots) == multiset(idx.Keys)
  {
    MembersAreKeys(slots, idx);
    forall t: T ensures Contents(slots)[t] == if t in idx.Keys then 1 else 0 {
      if t in idx.Keys {
        QueuedOnce(slots, idx, t);
      } else {
        assert t !in Members(slots);
      }
    }
  }

  lemma InsertNoDup<T>(q: seq<T>, pos: nat, t: T)
    requires NoDup(q) && t !in q && pos <= |q|
    ensures NoDup(InsertAt(q, pos, t))
    ensures forall u :: u in InsertAt(q, pos, t) <==> u == t || u in q
  {
    assert q == q[..pos] + q[pos..];
  }

  lemma PutPlaced<T>(slots: seq<seq<T>>, idx: map<T, nat>, p: nat, pos: nat, t: T)
    requires Placed(slots, idx) && t !in idx
    requires p < |slots| && pos <= |slots[p]|
    ensures Placed(Put(slots, p, pos, t), idx[t := p])
  {
    InsertNoDup(slots[p], pos, t);
  }

  lemma WithoutNoDup<T>(q: seq<T>, t: T)
    requires NoDup(q) && t in q
    ensures NoDup(Without(q, t))
    ensures forall u :: u in Without(q, t) ==> u in q
    ensures forall u :: u in q && u != t ==> u in Without(q, t)
    ensures t !in Without(q, t)
    ensures |Without(q, t)| == |q| - 1
  {
    var k := FirstIndex(q, t);
    WithoutAt(q, t, k);
    var w := q[..k] + q[k + 1..];
    assert forall i :: 0 <= i < |w| ==> w[i] == q[if i < k then i else i + 1];
    assert q == q[..k] + [t] + q[k + 1..];
  }

  lemma TakePlaced<T>(slots: seq<seq<T>>, idx: map<T, nat>, t: T)
    requires Placed(slots, idx) && t in idx
    ensures Placed(Take(slots, idx[t], t), idx - {t})
  {
    WithoutNoDup(slots[idx[t]], t);
  }

  lemma {:induction false} AllEmpty<T>(slots: seq<seq<T>>)
    requires forall p :: 0 <= p < |slots| ==> slots[p] == []
    ensures Flat(slots) == []
  {
    if slots != [] {
      AllEmpty(slots[1..]);
    }
  }

  lemma MemberOf<T>(slots: seq<seq<T>>, p: nat, i: nat)
    requires p < |slots| && i < |slots[p]|
    ensures slots[p][i] in Members(slots)
  {
    InFlat(slots, slots[p][i]);
    assert slots[p][i] in Contents(slots);
  }

  lemma EmptyMembers<T>(slots: seq<seq<T>>)
    requires forall p :: 0 <= p < |slots| ==> slots[p] == []
    ensures Members(slots) == {}
  {
    AllEmpty(slots);
  }

  lemma NoneIsEmpty<T>(slots: seq<seq<T>>, start: nat)
    requires |slots| == RQ_NQS && start < RQ_NQS && FirstFrom(slots, start, 0) == -1
    ensures forall p :: 0 <= p < |slots| ==> slots[p] == []
  {
    FirstFromIsNearest(slots, start, 0);
    forall p | 0 <= p < |slots| ensures slots[p] == [] {
      assert Dist(start, p) >= 0;
    }
  }

  // The chosen element is queued, and there is one unless the queue is empty.
  lemma ChosenIsQueued<T>(slots: seq<seq<T>>, start: nat)
    requires |slots| == RQ_NQS && start < RQ_NQS
    ensures var r := FirstFrom(slots, start, 0);
      && (r == -1 <==> Members(slots) == {})
      && (r != -1 ==> 0 <= r < RQ_NQS && slots[r] != [] && slots[r][0] in Members(slots))
  {
    FirstFromIsNearest(slots, start, 0);
    var r := FirstFrom(slots, start, 0);
    if r == -1 {
      NoneIsEmpty(slots, start);
      EmptyMembers(slots);
    } else {
      MemberOf(slots, r, 0);
    }
  }
}
