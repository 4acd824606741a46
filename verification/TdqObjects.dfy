/** struct tdq updated in place: the tdq_* operations of sched_ule.c, each proved against its value. */
module TdqObjects {
  import opened Queues
  import opened Calendar
  import opened Policies
  import RunQueues
  import R = RunqRuns
  import T = Tdqs

  // Where runq_add puts a thread of this priority under a policy: a slot the policy may choose, and the
  // position among the priorities queued there.
  ghost predicate PlacedBy(policy: Policy, pri: nat, preempted: bool, l: T.Line<nat>, prios: map<nat, nat>,
                           place: T.Place) {
    && T.Fits(l, place) && MayUse(policy, pri, place.slot)
    && (forall t :: t in l.slots[place.slot] ==> t in prios)
    && place.pos == Position(policy, pri, preempted, place.slot, R.Keys(l.slots[place.slot], prios))
  }

  // prios holds td_priority of the queued threads.
  method PlaceFor(policy: Policy, pri: nat, preempted: bool, l: T.Line<nat>, prios: map<nat, nat>)
    returns (place: T.Place)
    requires pri < 256 && T.LineOk(l) && l.at.Keys <= prios.Keys
    ensures PlacedBy(policy, pri, preempted, l, prios, place)
  {
    var slot;
    match policy {
      case Fifo => slot := pri / RQ_PPQ;
      case Sorted => slot := pri / RQ_PPQ;
      case ClassSplatter => slot := RunQueues.Runq.ClassSlot(pri);
      case _ => slot := RunQueues.Runq.SplatterSlot(pri);
    }
    assert forall t :: t in l.slots[slot] ==> t in l.at.Keys;
    place := T.Place(slot, Position(policy, pri, preempted, slot, R.Keys(l.slots[slot], prios)));
  }

  // The three embedded run queues are held as the values that the runq_* operations compute.
  class TdqObject {
    const b: Bands
    var realtime: T.Line<nat>       // tdq_realtime
    var timeshare: seq<seq<nat>>    // tdq_timeshare
    var tsindex: map<nat, nat>      // td_rqindex of its threads
    var idle: T.Line<nat>           // tdq_idle
    var idx: nat                    // tdq_idx
    var ridx: nat                   // tdq_ridx
    var load: int                   // tdq_load
    var transferable: int           // tdq_transferable
    var xferable: set<nat>          // the queued threads carrying TSF_XFERABLE

    ghost function View(): T.Tdq<nat>
      reads this
    {
      T.Tdq(realtime, Cal(timeshare, tsindex, idx, ridx), idle, xferable, load, transferable)
    }

    ghost predicate Valid()
      reads this
    {
      b.Ok() && T.TdqOk(View())
    }

    // The slot of the timeshare queue, as tdq_runq_add computes it.
    method TimeshareSlot(pri: nat, kind: Kind) returns (p: nat)
      requires b.Ok() && b.Batch(pri) && ridx < RQ_NQS && (idx == ridx || idx == (ridx + 1) % RQ_NQS)
      ensures p == SlotFor(b, pri, kind, idx, ridx) && p < RQ_NQS
      ensures kind != Ordinary ==> p == ridx
      ensures kind == Ordinary ==> (idx != ridx ==> p != ridx)
      ensures kind == Ordinary ==> LandsAt(b, pri, idx, ridx, Dist(ridx, p))
    {
      p := ridx;
      if kind == Ordinary {
        OrdinaryPlacement(b, pri, idx, ridx);
        p := RQ_NQS * (pri - b.minBatch) / b.Range();
        p := (p + idx) % RQ_NQS;
        if ridx != idx && p == ridx {
          p := (p + 255) % 256 % RQ_NQS;
        }
      }
    }

    method Link(td: nat, pri: nat, how: T.How)
      requires b.Ok() && T.QueuesOk(View()) && T.CanAdd(b, View(), pri, how)
      modifies this`realtime, this`timeshare, this`tsindex, this`idle
      ensures View() == T.Link(b, old(View()), td, pri, how)
    {
      match T.WhichQueue(b, pri)
      case Realtime => realtime := T.LinePut(realtime, td, how.place);
      case Timeshare =>
        var p := TimeshareSlot(pri, how.kind);
        timeshare := Put(timeshare, p, if how.kind == Preempted then 0 else |timeshare[p]|, td);
        tsindex := tsindex[td := p];
      case Idle => idle := T.LinePut(idle, td, how.place);
    }

    // tdq_runq_add, with the slot and position in a realtime or idle queue known.
    method AddAt(td: nat, pri: nat, pinned: bool, how: T.How)
      requires Valid() && td !in T.Queued(View()) && T.CanAdd(b, View(), pri, how)
      modifies this
      ensures Valid() && View() == T.RunqAdd(b, old(View()), td, pri, !pinned, how)
    {
      ghost var target := T.RunqAdd(b, View(), td, pri, !pinned, how);
      T.RunqAddOk(b, View(), td, pri, !pinned, how);
      Link(td, pri, how);
      CountIn(td, pinned);
      assert View() == target;
    }

    method CountIn(td: nat, pinned: bool)
      modifies this`transferable, this`xferable
      ensures View() == if pinned then old(View()) else
        old(View()).(transferable := old(transferable) + 1, xfer := old(xferable) + {td})
    {
      if !pinned {
        transferable := transferable + 1;
        xferable := xferable + {td};
      }
    }

    // Where a call of tdq_runq_add puts the thread: under the policy of runq_add in force in a realtime or
    // idle queue, and by its kind in the calendar.
    ghost predicate Places(pri: nat, kind: Kind, policy: Policy, prios: map<nat, nat>, how: T.How)
      reads this
    {
      && how.kind == kind && T.CanAdd(b, View(), pri, how)
      && match T.WhichQueue(b, pri)
         case Realtime => PlacedBy(policy, pri, kind == Preempted, realtime, prios, how.place)
         case Timeshare => true
         case Idle => PlacedBy(policy, pri, kind == Preempted, idle, prios, how.place)
    }

    method PlaceOf(pri: nat, kind: Kind, policy: Policy, prios: map<nat, nat>) returns (how: T.How)
      requires Valid() && pri < 256 && T.Queued(View()) <= prios.Keys
      ensures Places(pri, kind, policy, prios, how)
    {
      var place := T.Place(0, 0);
      match T.WhichQueue(b, pri) {
        case Realtime =>
          assert realtime.at.Keys <= T.Queued(View());
          place := PlaceFor(policy, pri, kind == Preempted, realtime, prios);
        case Timeshare =>
        case Idle =>
          assert idle.at.Keys <= T.Queued(View());
          place := PlaceFor(policy, pri, kind == Preempted, idle, prios);
      }
      how := T.How(kind, place);
    }

    // tdq_runq_add
    method RunqAdd(td: nat, pri: nat, pinned: bool, kind: Kind, policy: Policy, prios: map<nat, nat>)
      returns (how: T.How)
      requires Valid() && td !in T.Queued(View()) && pri < 256 && T.Queued(View()) <= prios.Keys
      modifies this
      ensures old(Places(pri, kind, policy, prios, how))
      ensures Valid() && View() == T.RunqAdd(b, old(View()), td, pri, !pinned, how)
      ensures td in realtime.at <==> pri < b.minBatch
      ensures td in tsindex <==> b.minBatch <= pri <= b.maxBatch
      ensures td in idle.at <==> pri > b.maxBatch
      ensures transferable == old(transferable) + (if pinned then 0 else 1)
    {
      how := PlaceOf(pri, kind, policy, prios);
      T.RunqAddPlaces(b, View(), td, pri, !pinned, how);
      T.RunqAddOk(b, View(), td, pri, !pinned, how);
      AddAt(td, pri, pinned, how);
    }

    method Unlink(td: nat)
      requires T.QueuesOk(View()) && td in T.Queued(View())
      modifies this`realtime, this`timeshare, this`tsindex, this`idle, this`ridx
      ensures View() == T.Unlink(old(View()), td)
    {
      if td in tsindex {
        var p := tsindex[td];
        timeshare := Take(timeshare, p, td);
        tsindex := tsindex - {td};
        // runq_remove_idx advances the index it is given when the slot it names has emptied.
        if idx != ridx && timeshare[p] == [] && ridx == p {
          ridx := (p + 1) % RQ_NQS;
        }
      } else if td in realtime.at {
        realtime := T.LineTake(realtime, td);
      } else {
        idle := T.LineTake(idle, td);
      }
    }

    // tdq_runq_rem
    method RunqRem(td: nat)
      requires Valid() && td in T.Queued(View())
      modifies this
      ensures Valid() && View() == T.RunqRem(old(View()), td)
    {
      T.RunqRemOk(View(), td);
      Unlink(td);
      if td in xferable {
        transferable := transferable - 1;
        xferable := xferable - {td};
      }
    }

    // tdq_add
    method Add(td: nat, pri: nat, pinned: bool, kind: Kind, policy: Policy, prios: map<nat, nat>) returns (how: T.How)
      requires Valid() && td !in T.Queued(View()) && pri < 256 && T.Queued(View()) <= prios.Keys
      modifies this
      ensures old(Places(pri, kind, policy, prios, how))
      ensures Valid() && View() == T.Add(b, old(View()), td, pri, !pinned, how)
    {
      how := RunqAdd(td, pri, pinned, kind, policy, prios);
      load := load + 1;
    }

    // sched_rem: tdq_runq_rem, then tdq_load_rem.
    method Rem(td: nat)
      requires Valid() && td in T.Queued(View()) && load != 0
      modifies this
      ensures Valid() && View() == T.Rem(old(View()), td)
    {
      RunqRem(td);
      load := load - 1;
    }

    // sched_choose: the thread leaves the queue, its load stays.
    method Choose() returns (td: Option<nat>)
      requires Valid()
      modifies this
      ensures Valid() && td == T.Choose(old(View()))
      ensures td.None? ==> View() == old(View()) && T.Queued(View()) == {}
      ensures td.Some? ==> td.value in old(T.Queued(View())) && View() == T.RunqRem(old(View()), td.value)
      ensures td.Some? ==> old(T.ChosenRight(View(), td.value))
    {
      T.ChooseOk(View());
      td := ChooseFrom(realtime.slots, 0);
      if td.None? {
        td := ChooseFrom(timeshare, ridx);
      }
      if td.None? {
        td := ChooseFrom(idle.slots, 0);
      }
      if td.Some? {
        RunqRem(td.value);
      }
    }

    // The index rotation of sched_clock.
    method Clock()
      requires Valid()
      modifies this
      ensures Valid() && View() == old(View()).(ts := Tick(old(View()).ts))
    {
      T.TickAllOk(View());
      if idx == ridx {
        idx := (idx + 1) % RQ_NQS;
        if timeshare[ridx] == [] {
          ridx := idx;
        }
      }
    }

    // tdq_setup, on a zeroed tdq
    constructor (b: Bands)
      requires b.Ok()
      ensures Valid() && this.b == b && T.Queued(View()) == {} && load == 0 && transferable == 0
    {
      this.b := b;
      var slots: seq<seq<nat>> := seq(RQ_NQS, _ => []);
      realtime, timeshare, tsindex, idle := T.Line(slots, map[]), slots, map[], T.Line(slots, map[]);
      idx, ridx, load, transferable, xferable := 0, 0, 0, 0, {};
    }
  }
}
