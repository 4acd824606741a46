/** The bitmap-indexed run queue of kern_switch.c, updated in place. */
module RunQueues {
  import opened Bits
  import opened StatusBits
  import opened Queues
  import opened Policies

  class Thread {
    const pinned: nat      // td_pinned; no operation on a queued thread changes it
    const cpuset: set<nat> // td_cpuset; likewise
    var priority: nat      // td_priority
    var rqindex: nat       // td_rqindex
    var xferable: bool     // TSF_XFERABLE in ts_flags
    var runq: Runq?        // ts_runq

    constructor (priority: nat, pinned: nat, cpuset: set<nat>)
      ensures this.priority == priority && this.pinned == pinned && this.cpuset == cpuset
      ensures !xferable && runq == null
    {
      this.priority, this.pinned, this.cpuset := priority, pinned, cpuset;
      rqindex, xferable, runq := 0, false, null;
    }
  }

  // The priorities queued in a slot.
  ghost function Keys(q: seq<Thread>): (keys: seq<nat>)
    reads q
    ensures |keys| == |q| && forall i :: 0 <= i < |q| ==> keys[i] == q[i].priority
  {
    if q == [] then [] else [q[0].priority] + Keys(q[1..])
  }

  ghost predicate BitsMatch<T>(words: seq<Word>, slots: seq<seq<T>>) {
    && |words| == RQB_LEN
    && |slots| == RQ_NQS
    && forall p :: 0 <= p < RQ_NQS ==> (On(words, p) <==> slots[p] != [])
  }

  // The word search refines the search over slots.
  lemma FirstOnIsFirstFrom<T>(words: seq<Word>, slots: seq<seq<T>>, lo: nat, pri: int)
    requires BitsMatch(words, slots) && lo < RQ_NQS && IsFirstOn(words, lo, pri)
    ensures pri != -1 ==> FirstFrom(slots, lo, 0) == pri
    ensures pri == -1 ==> -1 <= FirstFrom(slots, lo, 0) < lo
  {
    FirstFromIsNearest(slots, lo, 0);
    var f := FirstFrom(slots, lo, 0);
    if pri != -1 {
      assert Dist(lo, pri) == pri - lo;
      assert Dist(lo, f) <= pri - lo;
      assert !(lo <= f < pri);
    } else if f != -1 {
      assert On(words, f);
    }
  }

  lemma CyclicIsFirstFrom<T>(words: seq<Word>, slots: seq<seq<T>>, start: nat, pri: int)
    requires BitsMatch(words, slots) && start < RQ_NQS
    requires (exists p :: IsFirstOn(words, start, p) && pri == p != -1)
      || (IsFirstOn(words, start, -1) && IsFirstOn(words, 0, pri))
    ensures FirstFrom(slots, start, 0) == pri
  {
    if IsFirstOn(words, start, pri) && pri != -1 {
      FirstOnIsFirstFrom(words, slots, start, pri);
    } else {
      FirstFromIsNearest(slots, start, 0);
      var f := FirstFrom(slots, start, 0);
      if f != -1 {
        assert On(words, f) && f < start;
        assert 0 <= pri <= f;
        assert Dist(start, f) <= Dist(start, pri);
      }
    }
  }

  class Runq {
    const bits: array<Word>              // rq_status
    const queues: array<seq<Thread>>     // rq_queues
    ghost var placed: map<Thread, nat>   // the queued threads, each with its slot

    ghost function Slots(): seq<seq<Thread>>
      reads queues
    {
      queues[..]
    }

    ghost function Threads(): set<Thread>
      reads this
    {
      placed.Keys
    }

    // Bit p is set exactly when slot p holds a thread, and every queued thread is queued once, in slot
    // td_rqindex.
    ghost predicate Valid()
      reads this, bits, queues, Threads()
    {
      && bits.Length == RQB_LEN
      && queues.Length == RQ_NQS
      && BitsMatch(bits[..], Slots())
      && Placed(Slots(), placed)
      && forall t :: t in placed ==> t.rqindex == placed[t]
    }

    // runq_init
    constructor ()
      ensures Valid() && fresh(bits) && fresh(queues)
      ensures Slots() == seq(RQ_NQS, _ => []) && Threads() == {}
    {
      bits := new Word[RQB_LEN](_ => ZERO);
      queues := new seq<Thread>[RQ_NQS](_ => []);
      placed := map[];
      new;
    }

    // The common part of every runq_add: record the slot, mark it busy, link the thread in at pos.
    method Insert(td: Thread, slot: nat, pos: nat)
      requires Valid() && slot < RQ_NQS && pos <= |queues[slot]| && td !in Threads()
      modifies this, bits, queues, td`rqindex
      ensures Valid() && td.rqindex == slot && Threads() == old(Threads()) + {td}
      ensures Slots() == Put(old(Slots()), slot, pos, td)
    {
      PutPlaced(Slots(), placed, slot, pos, td);
      td.rqindex := slot;
      placed := placed[td := slot];
      StatusBits.Set(bits, slot);
      queues[slot] := queues[slot][..pos] + [td] + queues[slot][pos..];
      assert Slots() == Put(old(Slots()), slot, pos, td);
    }

    // TAILQ_INSERT_HEAD or TAILQ_INSERT_TAIL, by SRQ_PREEMPTED.
    method Enqueue(td: Thread, slot: nat, preempted: bool)
      requires Valid() && slot < RQ_NQS && td !in Threads()
      modifies this, bits, queues, td`rqindex
      ensures Valid() && td.rqindex == slot && Threads() == old(Threads()) + {td}
      ensures Slots() == Put(old(Slots()), slot, if preempted then 0 else |old(queues[slot])|, td)
    {
      Insert(td, slot, if preempted then 0 else |queues[slot]|);
    }

    // Insertion before the first queued thread of larger td_priority, found by TAILQ_FOREACH.
    method EnqueueSorted(td: Thread, slot: nat)
      requires Valid() && slot < RQ_NQS && td !in Threads()
      modifies this, bits, queues, td`rqindex
      ensures Valid() && td.rqindex == slot && Threads() == old(Threads()) + {td}
      ensures Slots() == Put(old(Slots()), slot, InsertPos(old(Keys(queues[slot])), td.priority), td)
    {
      var q := queues[slot];
      var i := 0;
      while i < |q| && q[i].priority <= td.priority
        invariant 0 <= i <= |q|
        invariant forall j :: 0 <= j < i ==> q[j].priority <= td.priority
      {
        i := i + 1;
      }
      InsertPosUnique(Keys(q), td.priority, i);
      Insert(td, slot, i);
    }

    // The insertion of runq_add: sorted, or at the head or the tail by SRQ_PREEMPTED.
    method Link(td: Thread, slot: nat, sorted: bool, preempted: bool)
      requires Valid() && slot < RQ_NQS && td !in Threads()
      modifies this, bits, queues, td`rqindex
      ensures Valid() && td.rqindex == slot && Threads() == old(Threads()) + {td}
      ensures Slots() == Put(old(Slots()), slot,
                             if sorted then InsertPos(old(Keys(queues[slot])), td.priority)
                             else if preempted then 0 else |old(queues[slot])|, td)
    {
      if sorted {
        EnqueueSorted(td, slot);
      } else {
        Enqueue(td, slot, preempted);
      }
    }

    // The thread was put where the policy puts it, and nothing else moved.
    twostate predicate Added(policy: Policy, td: Thread, preempted: bool)
      reads this, bits, queues, td
    {
      var slot := td.rqindex;
      && queues.Length == RQ_NQS
      && slot < RQ_NQS
      && MayUse(policy, td.priority, slot)
      && Threads() == old(Threads()) + {td}
      && Slots() == Put(old(Slots()), slot,
                        Position(policy, td.priority, preempted, slot, old(Keys(queues[slot]))), td)
    }

    // The slot of the splatter policies: a kernel thread keeps its own, a user thread takes that of a
    // random priority, redrawn while it is a kernel priority.
    static method SplatterSlot(priority: nat) returns (slot: nat)
      requires priority < 256
      ensures slot < RQ_NQS
      ensures MayUse(Splatter, priority, slot)
    {
      if priority < 48 || (priority < 120 && priority > 79) {
        return priority / RQ_PPQ;
      }
      assert !IsKernelPri(255);
      var pri: nat :| pri < 256 && !(pri < 48 || (pri > 79 && pri < 120));
      slot := pri / RQ_PPQ;
    }

    // Stock runq_add; branch 1 of the switchable one.
    method AddFifo(td: Thread, preempted: bool)
      requires Valid() && td !in Threads() && td.priority < 256
      modifies this, bits, queues, td`rqindex
      ensures Valid() && Added(Fifo, td, preempted)
    {
      Enqueue(td, td.priority / RQ_PPQ, preempted);
    }

    // A priority queue inside user slots: benchmark2/kern_switch.c and branch 2 of the switchable one.
    method AddSorted(td: Thread, preempted: bool)
      requires Valid() && td !in Threads() && td.priority < 256
      modifies this, bits, queues, td`rqindex
      ensures Valid() && Added(Sorted, td, preempted)
    {
      var pri := td.priority / RQ_PPQ;
      Link(td, pri, (30 <= pri <= 63) || (12 <= pri <= 19), preempted);
    }

    // Splatter for user threads; branch 3 of the switchable one.
    method AddSplatter(td: Thread, preempted: bool)
      requires Valid() && td !in Threads() && td.priority < 256
      modifies this, bits, queues, td`rqindex
      ensures Valid() && Added(Splatter, td, preempted)
    {
      var pri := SplatterSlot(td.priority);
      Enqueue(td, pri, preempted);
    }

    // Splatter for user threads, sorted inside the slot: benchmark4/kern_switch4.c and branch 4.
    method AddSplatterSorted(td: Thread, preempted: bool)
      requires Valid() && td !in Threads() && td.priority < 256
      modifies this, bits, queues, td`rqindex
      ensures Valid() && Added(SplatterSorted, td, preempted)
    {
      var checkKern := td.priority < 48 || (td.priority < 120 && td.priority > 79);
      var pri := SplatterSlot(td.priority);
      Link(td, pri, !checkKern, preempted);
    }

    // runq_add of testkernel/kern_switch.c: kern_switch_choose selects the policy call by call, and a
    // value outside 1..4 selects none.
    method Add(choose: int, td: Thread, preempted: bool)
      requires Valid() && td !in Threads() && td.priority < 256
      modifies this, bits, queues, td`rqindex
      ensures Valid()
      ensures PolicyOf(choose).Some? ==> Added(PolicyOf(choose).value, td, preempted)
      ensures PolicyOf(choose).None? ==> Slots() == old(Slots()) && Threads() == old(Threads())
    {
      if choose == 2 {
        AddSorted(td, preempted);
      }
      if choose == 3 {
        AddSplatter(td, preempted);
      }
      if choose == 4 {
        AddSplatterSorted(td, preempted);
      }
      if choose == 1 {
        AddFifo(td, preempted);
      }
    }

    // runq_add of kern_switch3.c: a random slot within each of three user bands, sorted inside the slot.
    method AddClassSplatter(td: Thread, preempted: bool)
      requires Valid() && td !in Threads() && td.priority < 256
      modifies this, bits, queues, td`rqindex
      ensures Valid() && Added(ClassSplatter, td, preempted)
    {
      var pri := ClassSlot(td.priority);
      Link(td, pri, (12 <= pri <= 19) || (30 <= pri <= 63), preempted);
    }

    static method ClassSlot(priority: nat) returns (pri: nat)
      requires priority < 256
      ensures pri < RQ_NQS && MayUse(ClassSplatter, priority, pri)
    {
      pri := priority / RQ_PPQ;
      if 12 <= pri <= 19 {
        var random: nat := *;
        pri := random % 8 + 12;
      }
      if 30 <= pri <= 55 {
        var random: nat := *;
        pri := random % 26 + 30;
      }
      if 56 <= pri <= 63 {
        var random: nat := *;
        pri := random % 8 + 56;
      }
    }

    // runq_add of kern_switch.c: splatter for user threads, sorted only in slots 30 to 55.
    method AddMidSorted(td: Thread, preempted: bool)
      requires Valid() && td !in Threads() && td.priority < 256
      modifies this, bits, queues, td`rqindex
      ensures Valid() && Added(MidSorted, td, preempted)
    {
      var checkKern := td.priority < 48 || (td.priority < 120 && td.priority > 79);
      var pri := SplatterSlot(td.priority);
      Link(td, pri, !checkKern && 30 <= pri <= 55, preempted);
    }

    // runq_add_pri
    method AddPri(td: Thread, pri: nat, preempted: bool)
      requires Valid() && td !in Threads() && pri < RQ_NQS
      modifies this, bits, queues, td`rqindex
      ensures Valid() && td.rqindex == pri && Threads() == old(Threads()) + {td}
      ensures Slots() == Put(old(Slots()), pri, if preempted then 0 else |old(queues[pri])|, td)
    {
      Enqueue(td, pri, preempted);
    }

    // runq_findbit
    method FindBit() returns (pri: int)
      requires Valid()
      ensures pri == FirstFrom(Slots(), 0, 0)
    {
      pri := StatusBits.First(bits);
      FirstOnIsFirstFrom(bits[..], Slots(), 0, pri);
    }

    // runq_findbit_from
    method FindBitFrom(start: nat) returns (pri: int)
      requires Valid() && start < 256
      ensures pri == FindFrom(Slots(), start)
    {
      pri := StatusBits.FirstFromStart(bits, start);
      if start < RQ_NQS {
        CyclicIsFirstFrom(bits[..], Slots(), start, pri);
      } else {
        FirstOnIsFirstFrom(bits[..], Slots(), start % RQB_BPW, pri);
      }
    }

    // runq_choose
    method Choose() returns (td: Thread?)
      requires Valid()
      ensures td == null <==> Threads() == {}
      ensures td != null ==> td in Threads() && ChooseFrom(Slots(), 0) == Some(td)
    {
      var pri := FindBit();
      ChosenIsQueued(Slots(), 0);
      MembersAreKeys(Slots(), placed);
      if pri == -1 {
        return null;
      }
      td := queues[pri][0];
    }

    // runq_choose_from
    method ChooseFromIdx(idx: nat) returns (td: Thread?)
      requires Valid() && idx < 256
      ensures td == null <==> FindFrom(Slots(), idx) == -1
      ensures td != null ==> td in Threads() && FirstOf(Slots(), FindFrom(Slots(), idx)) == Some(td)
      ensures idx < RQ_NQS ==> (td == null <==> Threads() == {})
      ensures idx < RQ_NQS && td != null ==> ChooseFrom(Slots(), idx) == Some(td)
    {
      var pri := FindBitFrom(idx);
      MembersAreKeys(Slots(), placed);
      if idx < RQ_NQS {
        ChosenIsQueued(Slots(), idx);
      }
      if pri == -1 {
        return null;
      }
      td := queues[pri][0];
      MemberOf(Slots(), pri, 0);
    }

    // runq_remove_idx, where idx is the rotation index to advance, if the caller passed one.
    method RemoveIdx(td: Thread, idx: Option<nat>) returns (idx': Option<nat>)
      requires Valid() && td in Threads()
      modifies this, bits, queues
      ensures Valid() && td.rqindex < RQ_NQS && Threads() == old(Threads()) - {td}
      ensures Slots() == Take(old(Slots()), td.rqindex, td)
      ensures idx' == if idx == Some(td.rqindex) && Slots()[td.rqindex] == []
                      then Some((td.rqindex + 1) % RQ_NQS) else idx
    {
      var pri := td.rqindex;
      TakeOut(td);
      idx' := idx;
      if queues[pri] == [] {
        ClearEmptied(pri);
        if idx == Some(pri) {
          idx' := Some((pri + 1) % RQ_NQS);
        }
      }
    }

    // All but the bit of slot p is right.
    ghost predicate ValidBut(p: nat)
      reads this, bits, queues, Threads()
    {
      && bits.Length == RQB_LEN
      && queues.Length == RQ_NQS
      && (forall q :: 0 <= q < RQ_NQS && q != p ==> (On(bits[..], q) <==> Slots()[q] != []))
      && Placed(Slots(), placed)
      && forall t :: t in placed ==> t.rqindex == placed[t]
    }

    // runq_clrbit
    method ClearEmptied(p: nat)
      requires p < RQ_NQS && ValidBut(p) && queues[p] == []
      modifies bits
      ensures Valid()
    {
      StatusBits.Clear(bits, p);
    }

    // TAILQ_REMOVE; the bit of the slot is left as it was.
    method TakeOut(td: Thread)
      requires Valid() && td in Threads()
      modifies this, queues
      ensures td.rqindex < RQ_NQS && ValidBut(td.rqindex) && On(bits[..], td.rqindex)
      ensures Slots() == Take(old(Slots()), td.rqindex, td) && placed == old(placed) - {td}
    {
      TakePlaced(Slots(), placed, td);
      placed := placed - {td};
      queues[td.rqindex] := Without(queues[td.rqindex], td);
      assert Slots() == Take(old(Slots()), td.rqindex, td);
    }
  }
}
