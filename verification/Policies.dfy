/** Where each version of runq_add puts a thread: the slots it may use and the position inside the slot. */
module Policies {
  import opened Queues

  // Fifo: stock runq_add.  Sorted: priority queue inside user slots.  Splatter: random user slot.
  // SplatterSorted: both.  ClassSplatter: random slot within three user bands, sorted.
  // MidSorted: random user slot, sorted only in slots 30 to 55.
  datatype Policy = Fifo | Sorted | Splatter | SplatterSorted | ClassSplatter | MidSorted

  // The policy selected by the run-time switch kern_switch_choose, if any.
  function PolicyOf(choose: int): Option<Policy> {
    if choose == 1 then Some(Fifo)
    else if choose == 2 then Some(Sorted)
    else if choose == 3 then Some(Splatter)
    else if choose == 4 then Some(SplatterSorted)
    else None
  }

  predicate IsKernelPri(pri: nat) {
    pri < 48 || 79 < pri < 120
  }

  predicate IsUserSlot(slot: nat) {
    12 <= slot <= 19 || 30 <= slot <= 63
  }

  // The slots a thread of this priority may be given, over all random outcomes.
  predicate MayUse(policy: Policy, pri: nat, slot: nat) {
    var base := pri / RQ_PPQ;
    match policy
    case Fifo => slot == base
    case Sorted => slot == base
    case ClassSplatter =>
      if 12 <= base <= 19 then 12 <= slot <= 19
      else if 30 <= base <= 55 then 30 <= slot <= 55
      else if 56 <= base <= 63 then 56 <= slot <= 63
      else slot == base
    case _ =>
      if IsKernelPri(pri) then slot == base else IsUserSlot(slot)
  }

  // Whether a thread of this priority is placed in the slot by sorted insertion.
  predicate Sorts(policy: Policy, pri: nat, slot: nat) {
    match policy
    case Sorted => IsUserSlot(slot)
    case SplatterSorted => !IsKernelPri(pri)
    case ClassSplatter => IsUserSlot(slot)
    case MidSorted => !IsKernelPri(pri) && 30 <= slot <= 55
    case _ => false
  }

  // The first position whose key exceeds pri; the end if there is none.
  function InsertPos(keys: seq<nat>, pri: nat): (pos: nat)
    ensures pos <= |keys|
    ensures forall i :: 0 <= i < pos ==> keys[i] <= pri
    ensures pos < |keys| ==> keys[pos] > pri
  {
    if keys == [] || keys[0] > pri then 0 else 1 + InsertPos(keys[1..], pri)
  }

  // Sorted insertion has only one possible position.
  lemma InsertPosUnique(keys: seq<nat>, pri: nat, pos: nat)
    requires pos <= |keys|
    requires forall i :: 0 <= i < pos ==> keys[i] <= pri
    requires pos < |keys| ==> keys[pos] > pri
    ensures InsertPos(keys, pri) == pos
  {
    var p := InsertPos(keys, pri);
    assert p < |keys| ==> !(keys[p] <= pri);
    assert pos < |keys| ==> !(keys[pos] <= pri);
  }

  // The position runq_add uses, given the priorities already queued in the slot.
  function Position(policy: Policy, pri: nat, preempted: bool, slot: nat, keys: seq<nat>): (pos: nat)
    ensures pos <= |keys|
  {
    if Sorts(policy, pri, slot) then InsertPos(keys, pri)
    else if preempted then 0
    else |keys|
  }

  // No version of runq_add lets the two classes share a slot, and kernel threads never move.
  lemma ClassesKeptApart(policy: Policy, pri: nat, slot: nat)
    requires pri < 256 && MayUse(policy, pri, slot)
    ensures slot < RQ_NQS
    ensures IsKernelPri(pri) ==> slot == pri / RQ_PPQ && !IsUserSlot(slot)
    ensures !IsKernelPri(pri) ==> IsUserSlot(slot)
  {
  }

  // Where insertion is sorted for every thread that can reach the slot.
  predicate SortsSlot(policy: Policy, slot: nat) {
    match policy
    case Sorted => IsUserSlot(slot)
    case SplatterSorted => IsUserSlot(slot)
    case ClassSplatter => IsUserSlot(slot)
    case MidSorted => 30 <= slot <= 55
    case _ => false
  }

  lemma SortsEveryArrival(policy: Policy, pri: nat, slot: nat)
    requires pri < 256 && MayUse(policy, pri, slot) && SortsSlot(policy, slot)
    ensures Sorts(policy, pri, slot)
  {
  }

  // What the values of the run-time switch mean: the slot a thread may get, and its position there.

  lemma SwitchOne(pri: nat, preempted: bool, slot: nat, keys: seq<nat>)
    requires pri < 256
    ensures PolicyOf(1).Some?
    ensures MayUse(PolicyOf(1).value, pri, slot) <==> slot == pri / 4
    ensures Position(PolicyOf(1).value, pri, preempted, slot, keys) == if preempted then 0 else |keys|
  {
  }

  lemma SwitchTwo(pri: nat, preempted: bool, slot: nat, keys: seq<nat>)
    requires pri < 256
    ensures PolicyOf(2).Some?
    ensures MayUse(PolicyOf(2).value, pri, slot) <==> slot == pri / 4
    ensures var pos := Position(PolicyOf(2).value, pri, preempted, slot, keys);
      if 12 <= slot <= 19 || 30 <= slot <= 63 then BeforeFirstLarger(keys, pri, pos)
      else pos == if preempted then 0 else |keys|
  {
  }

  lemma SwitchThree(pri: nat, preempted: bool, slot: nat, keys: seq<nat>)
    requires pri < 256
    ensures PolicyOf(3).Some?
    ensures MayUse(PolicyOf(3).value, pri, slot) <==>
      if pri < 48 || 80 <= pri < 120 then slot == pri / 4 else 12 <= slot <= 19 || 30 <= slot <= 63
    ensures Position(PolicyOf(3).value, pri, preempted, slot, keys) == if preempted then 0 else |keys|
  {
  }

  lemma SwitchFour(pri: nat, preempted: bool, slot: nat, keys: seq<nat>)
    requires pri < 256
    ensures PolicyOf(4).Some?
    ensures MayUse(PolicyOf(4).value, pri, slot) <==>
      if pri < 48 || 80 <= pri < 120 then slot == pri / 4 else 12 <= slot <= 19 || 30 <= slot <= 63
    ensures var pos := Position(PolicyOf(4).value, pri, preempted, slot, keys);
      if pri < 48 || 80 <= pri < 120 then pos == if preempted then 0 else |keys|
      else BeforeFirstLarger(keys, pri, pos)
  {
  }

  predicate BeforeFirstLarger(keys: seq<nat>, pri: nat, pos: nat) {
    pos <= |keys| && (forall i :: 0 <= i < pos ==> keys[i] <= pri) && (pos < |keys| ==> keys[pos] > pri)
  }

  // The two versions without a value of the switch: sorted in all user slots, or in the middle ones.

  lemma ClassPosition(pri: nat, preempted: bool, slot: nat, keys: seq<nat>)
    ensures var pos := Position(ClassSplatter, pri, preempted, slot, keys);
      if 12 <= slot <= 19 || 30 <= slot <= 63 then BeforeFirstLarger(keys, pri, pos)
      else pos == if preempted then 0 else |keys|
  {
  }

  lemma MidPlaces(pri: nat, preempted: bool, slot: nat, keys: seq<nat>)
    requires pri < 256
    ensures var kernel := pri < 48 || 80 <= pri < 120;
      MayUse(MidSorted, pri, slot) <==> if kernel then slot == pri / 4 else 12 <= slot <= 19 || 30 <= slot <= 63
    ensures var kernel, pos := pri < 48 || 80 <= pri < 120, Position(MidSorted, pri, preempted, slot, keys);
      if !kernel && 30 <= slot <= 55 then BeforeFirstLarger(keys, pri, pos)
      else pos == if preempted then 0 else |keys|
  {
  }

  // The band of user slots a slot lies in, if any.
  function Band(slot: nat): nat {
    if 12 <= slot <= 19 then 1 else if 30 <= slot <= 55 then 2 else if 56 <= slot <= 63 then 3 else 0
  }

  // A class-splattered thread stays in the band of its priority, and may get any slot of it; a kernel
  // thread stays in its slot.
  lemma ClassBand(pri: nat, slot: nat)
    requires pri < 256
    ensures Band(pri / 4) != 0 ==> (MayUse(ClassSplatter, pri, slot) <==> Band(slot) == Band(pri / 4))
    ensures Band(pri / 4) == 0 ==> (MayUse(ClassSplatter, pri, slot) <==> slot == pri / 4)
  {
  }
}
