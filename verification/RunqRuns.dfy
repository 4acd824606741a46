/** Whole runs of one run queue: any sequence of additions and removals, under any random outcomes. */
module RunqRuns {
  import opened Queues
  import opened Policies

  // The queue, and for each queued thread its td_rqindex, its td_priority (fixed while it is queued)
  // and its arrival number.
  datatype Rq = Rq(slots: seq<seq<nat>>, idx: map<nat, nat>, pri: map<nat, nat>, stamp: map<nat, nat>, clock: nat)

  // Add is runq_add with the policy in force at the call, None when kern_switch_choose selects none;
  // slot is the outcome of the random choice.
  datatype Event =
    | Add(td: nat, pri: nat, preempted: bool, policy: Option<Policy>, slot: nat)
    | AddPri(td: nat, pri: nat, preempted: bool, slot: nat)
    | Remove(td: nat)

  // runq_init
  ghost predicate IsInit(s: Rq) {
    && |s.slots| == RQ_NQS
    && (forall p :: 0 <= p < RQ_NQS ==> s.slots[p] == [])
    && s.idx == map[] && s.pri == map[] && s.stamp == map[]
  }

  function Keys(q: seq<nat>, pri: map<nat, nat>): (keys: seq<nat>)
    requires forall t :: t in q ==> t in pri
    ensures |keys| == |q| && forall i :: 0 <= i < |q| ==> keys[i] == pri[q[i]]
  {
    seq(|q|, (i: nat) requires i < |q| => assert q[i] in q; pri[q[i]])
  }

  ghost predicate Inv(s: Rq) {
    && |s.slots| == RQ_NQS
    && Placed(s.slots, s.idx)
    && Tables(s.idx, s.pri, s.stamp, s.clock)
  }

  // The tables know the queued threads and no others, and every arrival is in the past.
  ghost predicate Tables(idx: map<nat, nat>, pri: map<nat, nat>, stamp: map<nat, nat>, clock: nat) {
    && pri.Keys == idx.Keys && stamp.Keys == idx.Keys
    && forall t :: t in stamp ==> stamp[t] < clock
  }

  lemma TablesAdd(idx: map<nat, nat>, pri: map<nat, nat>, stamp: map<nat, nat>, clock: nat, td: nat, slot: nat, p: nat)
    requires Tables(idx, pri, stamp, clock)
    ensures Tables(idx[td := slot], pri[td := p], stamp[td := clock], clock + 1)
    ensures idx[td := slot].Keys == idx.Keys + {td}
  {
  }

  ghost predicate Enabled(s: Rq, e: Event) {
    match e
    case Add(td, pri, _, policy, slot) =>
      td !in s.idx && pri < 256 && (policy.Some? ==> MayUse(policy.value, pri, slot))
    case AddPri(td, pri, _, slot) => td !in s.idx && pri < 256 && slot < RQ_NQS
    case Remove(td) => td in s.idx
  }

  ghost function Inserted(s: Rq, td: nat, pri: nat, slot: nat, pos: nat): Rq
    requires slot < |s.slots| && pos <= |s.slots[slot]|
  {
    Rq(Put(s.slots, slot, pos, td), s.idx[td := slot], s.pri[td := pri], s.stamp[td := s.clock], s.clock + 1)
  }

  // Where an addition puts its thread.
  ghost function PosOf(s: Rq, e: Event): (pos: nat)
    requires Inv(s) && Enabled(s, e) && !e.Remove?
    requires e.Add? ==> e.policy.Some?
    ensures e.slot < RQ_NQS && pos <= |s.slots[e.slot]|
  {
    match e
    case Add(_, pri, preempted, policy, slot) =>
      ClassesKeptApart(policy.value, pri, slot);
      Position(policy.value, pri, preempted, slot, Keys(s.slots[slot], s.pri))
    case AddPri(_, _, preempted, slot) => if preempted then 0 else |s.slots[slot]|
  }

  ghost function Removed(s: Rq, td: nat): Rq
    requires Inv(s) && td in s.idx
  {
    TakePlaced(s.slots, s.idx, td);
    Rq(Take(s.slots, s.idx[td], td), s.idx - {td}, s.pri - {td}, s.stamp - {td}, s.clock)
  }

  ghost function Step(s: Rq, e: Event): Rq
    requires Inv(s) && Enabled(s, e)
  {
    if e.Remove? then Removed(s, e.td)
    else if e.Add? && e.policy.None? then s
    else Inserted(s, e.td, e.pri, e.slot, PosOf(s, e))
  }

  lemma InsertedInv(s: Rq, td: nat, pri: nat, slot: nat, pos: nat)
    requires Inv(s) && td !in s.idx && slot < RQ_NQS && pos <= |s.slots[slot]|
    ensures Inv(Inserted(s, td, pri, slot, pos))
    ensures Inserted(s, td, pri, slot, pos).idx.Keys == s.idx.Keys + {td}
  {
    PutPlaced(s.slots, s.idx, slot, pos, td);
    TablesAdd(s.idx, s.pri, s.stamp, s.clock, td, slot, pri);
  }

  lemma RemovedInv(s: Rq, td: nat)
    requires Inv(s) && td in s.idx
    ensures Inv(Removed(s, td))
    ensures Removed(s, td).idx.Keys == s.idx.Keys - {td}
  {
    TakePlaced(s.slots, s.idx, td);
  }

  // The callers' view of one event.
  function LiveStep(e: Event, live: set<nat>): set<nat> {
    if e.Remove? then live - {e.td} else live + {e.td}
  }

  lemma StepInv(s: Rq, e: Event)
    requires Inv(s) && Enabled(s, e)
    ensures Inv(Step(s, e))
    ensures Step(s, e).idx.Keys == if e.Add? && e.policy.None? then s.idx.Keys else LiveStep(e, s.idx.Keys)
  {
    if e.Remove? {
      RemovedInv(s, e.td);
    } else if !(e.Add? && e.policy.None?) {
      InsertedInv(s, e.td, e.pri, e.slot, PosOf(s, e));
    }
  }

  // The run of evs from s is possible and ends in s'.
  ghost predicate Reaches(s: Rq, evs: seq<Event>, s': Rq)
    decreases |evs|
  {
    if evs == [] then s' == s
    else Inv(s) && Enabled(s, evs[0]) && Reaches(Step(s, evs[0]), evs[1..], s')
  }

  // The threads the callers have queued and not removed.
  function Live(evs: seq<Event>, live: set<nat>): set<nat> {
    if evs == [] then live else Live(evs[1..], LiveStep(evs[0], live))
  }

  // Every addition has a policy in force, whichever it is.
  ghost predicate Selected(evs: seq<Event>) {
    forall e :: e in evs && e.Add? ==> e.policy.Some?
  }

  lemma InitInv(s: Rq)
    requires IsInit(s)
    ensures Inv(s)
  {
  }

  lemma {:induction false} RunInv(s: Rq, evs: seq<Event>, s': Rq)
    requires Inv(s) && Reaches(s, evs, s')
    ensures Inv(s')
    ensures Selected(evs) ==> s'.idx.Keys == Live(evs, s.idx.Keys)
    decreases |evs|
  {
    if evs != [] {
      StepInv(s, evs[0]);
      RunInv(Step(s, evs[0]), evs[1..], s');
    }
  }

  // With the policy changed freely between calls, every live thread is queued exactly once, in the slot
  // td_rqindex names, and nothing else is queued.
  lemma IndexAgrees(s0: Rq, evs: seq<Event>, s: Rq)
    requires IsInit(s0) && Reaches(s0, evs, s) && Selected(evs)
    ensures |s.slots| == RQ_NQS && Placed(s.slots, s.idx)
    ensures s.idx.Keys == Live(evs, {})
    ensures Contents(s.slots) == multiset(Live(evs, {}))
  {
    InitInv(s0);
    assert s0.idx.Keys == {};
    RunInv(s0, evs, s);
    ContentsAreKeys(s.slots, s.idx);
  }

  // What the calls of a run put into the queue and take out of it, with repetitions.

  ghost function Entered(evs: seq<Event>): multiset<nat> {
    if evs == [] then multiset{}
    else
      var enters := evs[0].AddPri? || (evs[0].Add? && evs[0].policy.Some?);
      (if enters then multiset{evs[0].td} else multiset{}) + Entered(evs[1..])
  }

  ghost function Left(evs: seq<Event>): multiset<nat> {
    if evs == [] then multiset{} else (if evs[0].Remove? then multiset{evs[0].td} else multiset{}) + Left(evs[1..])
  }

  lemma StepConserves(s: Rq, e: Event)
    requires Inv(s) && Enabled(s, e)
    ensures Contents(Step(s, e).slots) + Left([e]) == Contents(s.slots) + Entered([e])
  {
    assert [e][1..] == [];
    if e.Remove? {
      TakeContents(s.slots, s.idx[e.td], e.td);
    } else if !(e.Add? && e.policy.None?) {
      PutContents(s.slots, e.slot, PosOf(s, e), e.td);
    }
  }

  // Over every run, under any policies and random outcomes, no thread is lost or duplicated: what has left
  // and what is queued is what was queued and what has entered.
  lemma {:induction false} RunConserves(s: Rq, evs: seq<Event>, s': Rq)
    requires Inv(s) && Reaches(s, evs, s')
    ensures Contents(s'.slots) + Left(evs) == Contents(s.slots) + Entered(evs)
    decreases |evs|
  {
    if evs != [] {
      var mid := Step(s, evs[0]);
      StepInv(s, evs[0]);
      StepConserves(s, evs[0]);
      RunConserves(mid, evs[1..], s');
      FirstOf(evs);
      Combine(Contents(s.slots), Contents(mid.slots), Contents(s'.slots),
              Entered([evs[0]]), Entered(evs[1..]), Left([evs[0]]), Left(evs[1..]));
    }
  }

  lemma FirstOf(evs: seq<Event>)
    requires evs != []
    ensures Entered(evs) == Entered([evs[0]]) + Entered(evs[1..]) && Left(evs) == Left([evs[0]]) + Left(evs[1..])
  {
    assert [evs[0]][1..] == [];
  }

  lemma Combine(a: multiset<nat>, b: multiset<nat>, c: multiset<nat>, in1: multiset<nat>, in2: multiset<nat>,
                out1: multiset<nat>, out2: multiset<nat>)
    requires b + out1 == a + in1 && c + out2 == b + in2
    ensures c + (out1 + out2) == a + (in1 + in2)
  {
    forall t ensures (c + (out1 + out2))[t] == (a + (in1 + in2))[t] {
      assert (b + out1)[t] == (a + in1)[t] && (c + out2)[t] == (b + in2)[t];
    }
  }

  // A call of runq_add queues its thread if and only if the switch is one of 1, 2, 3 and 4.
  lemma AddQueues(s: Rq, td: nat, pri: nat, preempted: bool, choose: int, slot: nat)
    requires Inv(s) && Enabled(s, Add(td, pri, preempted, PolicyOf(choose), slot))
    ensures td in Step(s, Add(td, pri, preempted, PolicyOf(choose), slot)).idx <==> 1 <= choose <= 4
  {
    StepInv(s, Add(td, pri, preempted, PolicyOf(choose), slot));
  }

  // Class separation: runs fed by runq_add only.

  ghost predicate NoAddPri(evs: seq<Event>) {
    forall e :: e in evs ==> !e.AddPri?
  }

  predicate InClass(pri: nat, slot: nat) {
    if IsKernelPri(pri) then slot == pri / RQ_PPQ && !IsUserSlot(slot) else IsUserSlot(slot)
  }

  ghost predicate Apart(s: Rq) {
    && Inv(s)
    && forall t :: t in s.idx ==> InClass(s.pri[t], s.idx[t])
  }

  lemma StepApart(s: Rq, e: Event)
    requires Apart(s) && Enabled(s, e) && !e.AddPri?
    ensures Apart(Step(s, e))
  {
    StepInv(s, e);
    if e.Add? && e.policy.Some? {
      ClassesKeptApart(e.policy.value, e.pri, e.slot);
    }
  }

  lemma {:induction false} StaysApart(s0: Rq, evs: seq<Event>, s: Rq)
    requires Apart(s0) && Reaches(s0, evs, s) && NoAddPri(evs)
    ensures Apart(s)
    decreases |evs|
  {
    if evs != [] {
      StepApart(s0, evs[0]);
      StaysApart(Step(s0, evs[0]), evs[1..], s);
    }
  }

  // Kernel threads occupy only slots 0-11 and 20-29, user threads only 12-19 and 30-63, whatever the
  // policies and the random outcomes.
  lemma ClassesApart(s0: Rq, evs: seq<Event>, s: Rq)
    requires IsInit(s0) && Reaches(s0, evs, s) && NoAddPri(evs)
    ensures Apart(s)
  {
    InitInv(s0);
    StaysApart(s0, evs, s);
  }

  lemma QueuedIn(s: Rq, p: nat)
    requires Inv(s) && p < RQ_NQS
    ensures forall t :: t in s.slots[p] ==>
      t in s.idx && t in s.pri && t in s.stamp && s.idx[t] == p && s.stamp[t] < s.clock
  {
  }

  // The thread runq_choose returns stands in the least occupied slot.
  lemma ChosenSlot(s: Rq, td: nat)
    requires Inv(s) && ChooseFrom(s.slots, 0) == Some(td)
    ensures td in s.idx && s.slots[s.idx[td]] != [] && s.slots[s.idx[td]][0] == td
    ensures forall t :: t in s.idx ==> s.idx[td] <= s.idx[t] < RQ_NQS && t in s.slots[s.idx[t]]
  {
    FirstFromIsNearest(s.slots, 0, 0);
    var p := FirstFrom(s.slots, 0, 0);
    QueuedIn(s, p);
    assert td in s.slots[p];
    forall t | t in s.idx ensures p <= s.idx[t] < RQ_NQS && t in s.slots[s.idx[t]] {
      assert Dist(0, p) <= Dist(0, s.idx[t]);
    }
  }

  // Exactly when runq_choose hands the processor to a user thread: no thread of priority below 48 is
  // queued, and either a user thread sits in slots 12-19 or no kernel thread is queued at all.
  lemma ChooseRespectsClasses(s: Rq, td: nat)
    requires Apart(s) && ChooseFrom(s.slots, 0) == Some(td)
    ensures !IsKernelPri(s.pri[td]) <==>
      && (forall t :: t in s.idx ==> s.pri[t] >= 48)
      && ((exists t :: t in s.idx && 12 <= s.idx[t] <= 19) || (forall t :: t in s.idx ==> !IsKernelPri(s.pri[t])))
  {
    ChosenSlot(s, td);
    forall t | t in s.idx ensures s.pri[t] < 48 <==> s.idx[t] < 12 {
      assert InClass(s.pri[t], s.idx[t]);
    }
    forall t | t in s.idx ensures IsKernelPri(s.pri[t]) <==> !IsUserSlot(s.idx[t]) {
      assert InClass(s.pri[t], s.idx[t]);
    }
  }

  // Sorted slots: runs fed by runq_add only, under policies that sort the slot.

  ghost predicate Before(s: Rq, t: nat, u: nat)
    requires t in s.pri && u in s.pri && t in s.stamp && u in s.stamp
  {
    s.pri[t] < s.pri[u] || (s.pri[t] == s.pri[u] && s.stamp[t] < s.stamp[u])
  }

  ghost predicate Ordered(s: Rq, q: seq<nat>) {
    && (forall t :: t in q ==> t in s.pri && t in s.stamp)
    && forall i, j :: 0 <= i < j < |q| ==> Before(s, q[i], q[j])
  }

  // Slot p is ordered by td_priority, and by arrival among equals.
  ghost predicate InOrder(s: Rq, p: nat) {
    p < |s.slots| && Ordered(s, s.slots[p])
  }

  ghost predicate AllSort(evs: seq<Event>, p: nat) {
    forall e :: e in evs && e.Add? && e.policy.Some? ==> SortsSlot(e.policy.value, p)
  }

  // s' knows the threads of q as s does.
  ghost predicate SameOn(s: Rq, s': Rq, q: seq<nat>) {
    forall t :: t in q ==>
      t in s.pri && t in s.stamp && t in s'.pri && t in s'.stamp && s'.pri[t] == s.pri[t] && s'.stamp[t] == s.stamp[t]
  }

  // An ordered slot splits at the insertion position.
  lemma SplitsAt(s: Rq, q: seq<nat>, pri: nat)
    requires Ordered(s, q)
    ensures var pos := InsertPos(Keys(q, s.pri), pri);
      && (forall i :: 0 <= i < pos ==> s.pri[q[i]] <= pri)
      && (forall i :: pos <= i < |q| ==> s.pri[q[i]] > pri)
  {
    var keys := Keys(q, s.pri);
    var pos := InsertPos(keys, pri);
    forall i | pos <= i < |q| ensures s.pri[q[i]] > pri {
      assert keys[pos] > pri;
      if i > pos { assert Before(s, q[pos], q[i]); }
    }
    forall i | 0 <= i < pos ensures s.pri[q[i]] <= pri {
      assert keys[i] <= pri;
    }
  }

  lemma InsertOrdered(s: Rq, s': Rq, q: seq<nat>, td: nat, pos: nat)
    requires Ordered(s, q) && SameOn(s, s', q) && pos <= |q|
    requires td in s'.pri && td in s'.stamp && forall t :: t in q ==> s.stamp[t] < s'.stamp[td]
    requires forall i :: 0 <= i < pos ==> s.pri[q[i]] <= s'.pri[td]
    requires forall i :: pos <= i < |q| ==> s.pri[q[i]] > s'.pri[td]
    ensures Ordered(s', InsertAt(q, pos, td))
  {
    var q' := InsertAt(q, pos, td);
    forall i | 0 <= i < |q'| ensures q'[i] == if i < pos then q[i] else if i == pos then td else q[i - 1] {}
    forall i, j | 0 <= i < j < |q'| ensures Before(s', q'[i], q'[j]) {
      if i != pos && j != pos {
        assert Before(s, q[if i < pos then i else i - 1], q[if j < pos then j else j - 1]);
      }
    }
  }

  lemma RemoveOrdered(s: Rq, s': Rq, q: seq<nat>, td: nat)
    requires Ordered(s, q) && td in q && SameOn(s, s', Without(q, td))
    ensures Ordered(s', Without(q, td))
  {
    var k := FirstIndex(q, td);
    WithoutAt(q, td, k);
    DropOrdered(s, s', q, k);
  }

  lemma DropOrdered(s: Rq, s': Rq, q: seq<nat>, k: nat)
    requires Ordered(s, q) && k < |q| && SameOn(s, s', q[..k] + q[k + 1..])
    ensures Ordered(s', q[..k] + q[k + 1..])
  {
    var q' := q[..k] + q[k + 1..];
    forall i | 0 <= i < |q'| ensures q'[i] == q[if i < k then i else i + 1] {}
    forall i, j | 0 <= i < j < |q'| ensures Before(s', q'[i], q'[j]) {
      assert Before(s, q[if i < k then i else i + 1], q[if j < k then j else j + 1]);
      assert q'[i] in q' && q'[j] in q';
    }
  }

  lemma KeepOrdered(s: Rq, s': Rq, q: seq<nat>)
    requires Ordered(s, q) && SameOn(s, s', q)
    ensures Ordered(s', q)
  {
    forall i, j | 0 <= i < j < |q| ensures Before(s', q[i], q[j]) {
      assert Before(s, q[i], q[j]);
    }
  }

  lemma RemoveInOrder(s: Rq, td: nat, p: nat)
    requires Inv(s) && InOrder(s, p) && td in s.idx
    ensures InOrder(Removed(s, td), p)
  {
    QueuedIn(s, p);
    var q, s' := s.slots[p], Removed(s, td);
    if s.idx[td] == p {
      WithoutNoDup(q, td);
      RemoveOrdered(s, s', q, td);
    } else {
      KeepOrdered(s, s', q);
    }
  }

  lemma InsertInOrder(s: Rq, td: nat, pri: nat, slot: nat, pos: nat, p: nat)
    requires Inv(s) && InOrder(s, p) && td !in s.idx && slot < RQ_NQS && pos <= |s.slots[slot]|
    requires slot == p ==>
      (forall t :: t in s.slots[p] ==> t in s.pri) && pos == InsertPos(Keys(s.slots[p], s.pri), pri)
    ensures InOrder(Inserted(s, td, pri, slot, pos), p)
  {
    QueuedIn(s, p);
    var q, s' := s.slots[p], Inserted(s, td, pri, slot, pos);
    if slot == p {
      SplitsAt(s, q, pri);
      InsertOrdered(s, s', q, td, pos);
    } else {
      KeepOrdered(s, s', q);
    }
  }

  lemma StepInOrder(s: Rq, e: Event, p: nat)
    requires Inv(s) && InOrder(s, p) && Enabled(s, e) && !e.AddPri?
    requires e.Add? && e.policy.Some? ==> SortsSlot(e.policy.value, p)
    ensures InOrder(Step(s, e), p)
  {
    if e.Remove? {
      RemoveInOrder(s, e.td, p);
    } else if e.policy.Some? {
      QueuedIn(s, p);
      if e.slot == p {
        SortsEveryArrival(e.policy.value, e.pri, p);
      }
      InsertInOrder(s, e.td, e.pri, e.slot, PosOf(s, e), p);
    }
  }

  // A slot that every policy in the run sorts stays a priority queue, FIFO among equals.
  lemma {:induction false} StaysSorted(s0: Rq, evs: seq<Event>, s: Rq, p: nat)
    requires Inv(s0) && InOrder(s0, p)
    requires Reaches(s0, evs, s) && NoAddPri(evs) && AllSort(evs, p)
    ensures Inv(s) && InOrder(s, p)
    decreases |evs|
  {
    if evs != [] {
      StepInv(s0, evs[0]);
      StepInOrder(s0, evs[0], p);
      StaysSorted(Step(s0, evs[0]), evs[1..], s, p);
    }
  }

  // Slots that no addition sorts: first in, first out.

  // In the order of arrival.
  ghost predicate Rising(stamp: map<nat, nat>, q: seq<nat>) {
    && (forall t :: t in q ==> t in stamp)
    && forall i, j :: 0 <= i < j < |q| ==> stamp[q[i]] < stamp[q[j]]
  }

  lemma RisingSame(stamp: map<nat, nat>, stamp': map<nat, nat>, q: seq<nat>)
    requires Rising(stamp, q) && forall t :: t in q ==> t in stamp' && stamp'[t] == stamp[t]
    ensures Rising(stamp', q)
  {
  }

  lemma RisingAppend(stamp: map<nat, nat>, q: seq<nat>, t: nat)
    requires Rising(stamp, q) && t in stamp && forall u :: u in q ==> stamp[u] < stamp[t]
    ensures Rising(stamp, q + [t])
  {
  }

  lemma RisingDrop(stamp: map<nat, nat>, q: seq<nat>, k: nat)
    requires Rising(stamp, q) && k < |q|
    ensures Rising(stamp, q[..k] + q[k + 1..])
  {
    var q' := q[..k] + q[k + 1..];
    forall i | 0 <= i < |q'| ensures q'[i] == q[if i < k then i else i + 1] {}
    forall t | t in q' ensures t in stamp {
      assert t in q;
    }
  }

  // No addition to slot p is sorted or preempted.
  ghost predicate PlainAt(e: Event, p: nat) {
    match e
    case Add(_, pri, preempted, policy, slot) =>
      policy.Some? && slot == p ==> !preempted && !Sorts(policy.value, pri, slot)
    case AddPri(_, _, preempted, slot) => slot == p ==> !preempted
    case Remove(_) => true
  }

  lemma StepFifo(s: Rq, e: Event, p: nat)
    requires Inv(s) && Enabled(s, e) && p < RQ_NQS && Rising(s.stamp, s.slots[p]) && PlainAt(e, p)
    ensures |Step(s, e).slots| == RQ_NQS && Rising(Step(s, e).stamp, Step(s, e).slots[p])
  {
    if e.Remove? {
      RemovedFifo(s, e.td, p);
    } else if !(e.Add? && e.policy.None?) {
      InsertedFifo(s, e.td, e.pri, e.slot, PosOf(s, e), p);
    }
  }

  lemma RemovedFifo(s: Rq, td: nat, p: nat)
    requires Inv(s) && td in s.idx && p < RQ_NQS && Rising(s.stamp, s.slots[p])
    ensures |Removed(s, td).slots| == RQ_NQS && Rising(Removed(s, td).stamp, Removed(s, td).slots[p])
  {
    QueuedIn(s, p);
    var q, q' := s.slots[p], Removed(s, td).slots[p];
    RemoveFifo(s.stamp, q, td);
    if s.idx[td] == p {
      WithoutNoDup(q, td);
    }
    RisingSame(s.stamp, s.stamp - {td}, q');
  }

  lemma InsertedFifo(s: Rq, td: nat, pri: nat, slot: nat, pos: nat, p: nat)
    requires Inv(s) && td !in s.idx && p < RQ_NQS && Rising(s.stamp, s.slots[p])
    requires slot < RQ_NQS && pos <= |s.slots[slot]| && (slot == p ==> pos == |s.slots[slot]|)
    ensures var s' := Inserted(s, td, pri, slot, pos); |s'.slots| == RQ_NQS && Rising(s'.stamp, s'.slots[p])
  {
    QueuedIn(s, p);
    var q, stamp := s.slots[p], s.stamp[td := s.clock];
    RisingSame(s.stamp, stamp, q);
    if slot == p {
      RisingAppend(stamp, q, td);
      assert InsertAt(q, |q|, td) == q + [td];
    }
  }

  lemma RemoveFifo(stamp: map<nat, nat>, q: seq<nat>, td: nat)
    requires Rising(stamp, q)
    ensures Rising(stamp, Without(q, td))
    ensures NoDup(q) ==> td !in Without(q, td)
    ensures td !in q ==> Without(q, td) == q
  {
    if td in q {
      var k := FirstIndex(q, td);
      WithoutAt(q, td, k);
      RisingDrop(stamp, q, k);
      if NoDup(q) {
        WithoutNoDup(q, td);
      }
    } else {
      WithoutNone(q, td);
    }
  }

  lemma {:induction false} WithoutNone(q: seq<nat>, td: nat)
    requires td !in q
    ensures Without(q, td) == q
  {
    if q != [] {
      WithoutNone(q[1..], td);
    }
  }

  // A slot fed by plain additions alone stays in the order of arrival.
  lemma {:induction false} StaysFifo(s0: Rq, evs: seq<Event>, s: Rq, p: nat)
    requires Inv(s0) && p < RQ_NQS && Rising(s0.stamp, s0.slots[p])
    requires Reaches(s0, evs, s) && forall e :: e in evs ==> PlainAt(e, p)
    ensures |s.slots| == RQ_NQS && Rising(s.stamp, s.slots[p])
    decreases |evs|
  {
    if evs != [] {
      StepInv(s0, evs[0]);
      StepFifo(s0, evs[0], p);
      StaysFifo(Step(s0, evs[0]), evs[1..], s, p);
    }
  }

  // A preempted thread that is not sorted goes first.
  lemma PreemptedFirst(s: Rq, e: Event)
    requires Inv(s) && Enabled(s, e) && !e.Remove? && e.preempted
    requires e.Add? ==> e.policy.Some? && !Sorts(e.policy.value, e.pri, e.slot)
    ensures e.slot < |Step(s, e).slots| == |s.slots|
    ensures Step(s, e).slots == s.slots[e.slot := [e.td] + s.slots[e.slot]]
  {
    var pos := PosOf(s, e);
    assert InsertAt(s.slots[e.slot], 0, e.td) == [e.td] + s.slots[e.slot];
  }

  // Under class splatter every thread stays in the band of its priority, over every run.
  ghost predicate Banded(s: Rq) {
    && Inv(s)
    && forall t :: t in s.idx ==>
         if Band(s.pri[t] / 4) != 0 then Band(s.idx[t]) == Band(s.pri[t] / 4) else s.idx[t] == s.pri[t] / 4
  }

  lemma {:induction false} StaysBanded(s0: Rq, evs: seq<Event>, s: Rq)
    requires Banded(s0) && Reaches(s0, evs, s) && NoAddPri(evs)
    requires forall e :: e in evs && e.Add? ==> e.policy == Some(ClassSplatter)
    ensures Banded(s)
    decreases |evs|
  {
    if evs != [] {
      StepInv(s0, evs[0]);
      if evs[0].Add? {
        ClassBand(evs[0].pri, evs[0].slot);
      }
      StaysBanded(Step(s0, evs[0]), evs[1..], s);
    }
  }

  lemma BandsKept(s0: Rq, evs: seq<Event>, s: Rq)
    requires IsInit(s0) && Reaches(s0, evs, s) && NoAddPri(evs)
    requires forall e :: e in evs && e.Add? ==> e.policy == Some(ClassSplatter)
    ensures Banded(s)
  {
    InitInv(s0);
    StaysBanded(s0, evs, s);
  }

  // Without splatter a thread stands in the slot of its priority.
  ghost predicate Home(s: Rq) {
    Inv(s) && forall t :: t in s.idx ==> s.idx[t] == s.pri[t] / RQ_PPQ
  }

  ghost predicate OnlySorted(evs: seq<Event>) {
    forall e :: e in evs && e.Add? ==> e.policy == Some(Sorted)
  }

  lemma {:induction false} StaysHome(s0: Rq, evs: seq<Event>, s: Rq)
    requires Home(s0) && Reaches(s0, evs, s) && NoAddPri(evs) && OnlySorted(evs)
    ensures Home(s)
    decreases |evs|
  {
    if evs != [] {
      StepInv(s0, evs[0]);
      StaysHome(Step(s0, evs[0]), evs[1..], s);
    }
  }

  // benchmark2: when the chosen thread's slot is a sorted one, no queued thread has a smaller priority,
  // and none of equal priority arrived earlier.
  lemma ChooseIsLeast(s0: Rq, evs: seq<Event>, s: Rq, td: nat)
    requires IsInit(s0) && Reaches(s0, evs, s) && NoAddPri(evs) && OnlySorted(evs)
    requires |s.slots| == RQ_NQS && ChooseFrom(s.slots, 0) == Some(td)
    ensures td in s.idx && td in s.pri && td in s.stamp
    ensures IsUserSlot(s.idx[td]) ==>
      forall t :: t in s.idx && t != td ==> t in s.pri && t in s.stamp && Before(s, td, t)
  {
    InitInv(s0);
    StaysHome(s0, evs, s);
    ChosenSlot(s, td);
    if IsUserSlot(s.idx[td]) {
      OrderedAfter(s0, evs, s, s.idx[td]);
      ChosenIsLeast(s, td);
    }
  }

  lemma OrderedAfter(s0: Rq, evs: seq<Event>, s: Rq, p: nat)
    requires IsInit(s0) && Reaches(s0, evs, s) && NoAddPri(evs) && OnlySorted(evs) && IsUserSlot(p) && p < RQ_NQS
    ensures InOrder(s, p)
  {
    InitInv(s0);
    InitInOrder(s0, p);
    StaysSorted(s0, evs, s, p);
  }

  lemma InitInOrder(s: Rq, p: nat)
    requires IsInit(s) && p < RQ_NQS
    ensures InOrder(s, p)
  {
  }

  lemma ChosenIsLeast(s: Rq, td: nat)
    requires Home(s) && ChooseFrom(s.slots, 0) == Some(td) && td in s.idx && InOrder(s, s.idx[td])
    requires td in s.pri && td in s.stamp
    ensures forall t :: t in s.idx && t != td ==> t in s.pri && t in s.stamp && Before(s, td, t)
  {
    ChosenSlot(s, td);
    forall t | t in s.idx && t != td ensures t in s.pri && t in s.stamp && Before(s, td, t) {
      HeadIsLeast(s, td, t);
    }
  }

  lemma HeadIsLeast(s: Rq, td: nat, t: nat)
    requires Home(s) && td in s.idx && t in s.idx && t != td && InOrder(s, s.idx[td])
    requires s.idx[td] <= s.idx[t] < |s.slots| && t in s.slots[s.idx[t]]
    requires s.slots[s.idx[td]] != [] && s.slots[s.idx[td]][0] == td
    ensures t in s.pri && t in s.stamp && td in s.pri && td in s.stamp && Before(s, td, t)
  {
    var p := s.idx[td];
    if s.idx[t] == p {
      var i :| 0 <= i < |s.slots[p]| && s.slots[p][i] == t;
      assert Before(s, s.slots[p][0], s.slots[p][i]);
    }
  }
}
