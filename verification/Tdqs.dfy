/** One CPU's thread queue (struct tdq) as a value: three run queues, the calendar indices and the counts. */
module Tdqs {
  import opened Queues
  import opened Calendar
  import opened Stealing

  // A run queue without rotation: tdq_realtime or tdq_idle, with td_rqindex of its threads.
  datatype Line<T> = Line(slots: seq<seq<T>>, at: map<T, nat>)

  // xfer is the set of queued threads carrying TSF_XFERABLE.
  datatype Tdq<T> = Tdq(rt: Line<T>, ts: Cal<T>, idle: Line<T>, xfer: set<T>, load: int, transferable: int)

  // Which run queue a priority belongs to.
  datatype Which = Realtime | Timeshare | Idle

  function WhichQueue(b: Bands, pri: nat): Which {
    if pri < b.minBatch then Realtime else if pri <= b.maxBatch then Timeshare else Idle
  }

  // Where runq_add puts a thread in a line: slot and position, left open here over all its versions.
  datatype Place = Place(slot: nat, pos: nat)

  predicate Fits<T>(l: Line<T>, p: Place) {
    p.slot < |l.slots| && p.pos <= |l.slots[p.slot]|
  }

  ghost predicate LineOk<T>(l: Line<T>) {
    |l.slots| == RQ_NQS && Placed(l.slots, l.at)
  }

  ghost predicate Disjoint<T>(d: Tdq<T>) {
    d.rt.at.Keys !! d.ts.at.Keys && d.rt.at.Keys !! d.idle.at.Keys && d.ts.at.Keys !! d.idle.at.Keys
  }

  function Queued<T>(d: Tdq<T>): set<T> {
    d.rt.at.Keys + d.ts.at.Keys + d.idle.at.Keys
  }

  ghost predicate QueuesOk<T>(d: Tdq<T>) {
    LineOk(d.rt) && Ok(d.ts) && LineOk(d.idle) && Disjoint(d)
  }

  ghost predicate TdqOk<T>(d: Tdq<T>) {
    && QueuesOk(d)
    && d.xfer <= Queued(d)
    && d.transferable == |d.xfer|
  }

  // How tdq_runq_add is called: the flags, and where the line policies would put the thread.
  datatype How = How(kind: Kind, place: Place)

  predicate CanAdd<T>(b: Bands, d: Tdq<T>, pri: nat, how: How) {
    && b.Ok()
    && match WhichQueue(b, pri)
       case Realtime => Fits(d.rt, how.place)
       case Timeshare => true
       case Idle => Fits(d.idle, how.place)
  }

  function LinePut<T>(l: Line<T>, t: T, p: Place): Line<T>
    requires Fits(l, p)
  {
    Line(Put(l.slots, p.slot, p.pos, t), l.at[t := p.slot])
  }

  function LineTake<T(==)>(l: Line<T>, t: T): Line<T>
    requires t in l.at && l.at[t] < |l.slots|
  {
    Line(Take(l.slots, l.at[t], t), l.at - {t})
  }

  function Link<T>(b: Bands, d: Tdq<T>, t: T, pri: nat, how: How): Tdq<T>
    requires CanAdd(b, d, pri, how) && |d.ts.slots| == RQ_NQS && d.ts.ridx < RQ_NQS
  {
    match WhichQueue(b, pri)
    case Realtime => d.(rt := LinePut(d.rt, t, how.place))
    case Timeshare => d.(ts := Calendar.Add(b, d.ts, t, pri, how.kind))
    case Idle => d.(idle := LinePut(d.idle, t, how.place))
  }

  // tdq_runq_add
  function RunqAdd<T>(b: Bands, d: Tdq<T>, t: T, pri: nat, migratable: bool, how: How): Tdq<T>
    requires CanAdd(b, d, pri, how) && |d.ts.slots| == RQ_NQS && d.ts.ridx < RQ_NQS
  {
    Count(Link(b, d, t, pri, how), t, migratable)
  }

  function Count<T>(d: Tdq<T>, t: T, migratable: bool): Tdq<T> {
    if migratable then d.(transferable := d.transferable + 1, xfer := d.xfer + {t}) else d
  }

  function Unlink<T>(d: Tdq<T>, t: T): Tdq<T>
    requires QueuesOk(d) && t in Queued(d)
  {
    if t in d.ts.at then d.(ts := Calendar.Rem(d.ts, t))
    else if t in d.rt.at then d.(rt := LineTake(d.rt, t))
    else d.(idle := LineTake(d.idle, t))
  }

  // tdq_runq_rem, from the queue the thread's ts_runq names.
  function RunqRem<T>(d: Tdq<T>, t: T): Tdq<T>
    requires TdqOk(d) && t in Queued(d)
  {
    Uncount(Unlink(d, t), t)
  }

  function Uncount<T>(d: Tdq<T>, t: T): Tdq<T> {
    if t in d.xfer then d.(transferable := d.transferable - 1, xfer := d.xfer - {t}) else d
  }

  function LoadAdd<T>(d: Tdq<T>): Tdq<T> {
    d.(load := d.load + 1)
  }

  // tdq_load_rem, with the assertion it makes
  function LoadRem<T>(d: Tdq<T>): Tdq<T>
    requires d.load != 0
  {
    d.(load := d.load - 1)
  }

  // tdq_add
  function Add<T>(b: Bands, d: Tdq<T>, t: T, pri: nat, migratable: bool, how: How): Tdq<T>
    requires CanAdd(b, d, pri, how) && |d.ts.slots| == RQ_NQS && d.ts.ridx < RQ_NQS
  {
    LoadAdd(RunqAdd(b, d, t, pri, migratable, how))
  }

  // sched_rem
  function Rem<T>(d: Tdq<T>, t: T): Tdq<T>
    requires TdqOk(d) && t in Queued(d) && d.load != 0
  {
    LoadRem(RunqRem(d, t))
  }

  // tdq_choose
  function Choose<T(==)>(d: Tdq<T>): Option<T>
    requires |d.rt.slots| == |d.ts.slots| == |d.idle.slots| == RQ_NQS && d.ts.ridx < RQ_NQS
  {
    var r := ChooseFrom(d.rt.slots, 0);
    if r.Some? then r else
    var s := ChooseFrom(d.ts.slots, d.ts.ridx);
    if s.Some? then s else ChooseFrom(d.idle.slots, 0)
  }

  // tdq_steal, for the set e of threads that may go to the thief.
  function Steal<T(==)>(d: Tdq<T>, e: set<T>): Option<T>
    requires d.ts.ridx <= |d.ts.slots|
  {
    var r := StealLinear(d.rt.slots, e);
    if r.Some? then r else
    var s := StealFrom(d.ts.slots, d.ts.ridx, e);
    if s.Some? then s else StealLinear(d.idle.slots, e)
  }

  lemma LinePutOk<T>(l: Line<T>, t: T, p: Place)
    requires LineOk(l) && t !in l.at && Fits(l, p)
    ensures LineOk(LinePut(l, t, p)) && LinePut(l, t, p).at.Keys == l.at.Keys + {t}
  {
    PutPlaced(l.slots, l.at, p.slot, p.pos, t);
  }

  lemma LineTakeOk<T>(l: Line<T>, t: T)
    requires LineOk(l) && t in l.at
    ensures LineOk(LineTake(l, t)) && LineTake(l, t).at.Keys == l.at.Keys - {t}
  {
    TakePlaced(l.slots, l.at, t);
  }

  lemma LinkOk<T>(b: Bands, d: Tdq<T>, t: T, pri: nat, how: How)
    requires QueuesOk(d) && t !in Queued(d) && CanAdd(b, d, pri, how)
    ensures var d' := Link(b, d, t, pri, how);
      && QueuesOk(d') && Queued(d') == Queued(d) + {t}
      && d'.load == d.load && d'.transferable == d.transferable && d'.xfer == d.xfer
  {
    match WhichQueue(b, pri)
    case Realtime => LinePutOk(d.rt, t, how.place);
    case Timeshare =>
      AddOk(b, d.ts, t, pri, how.kind);
      assert Calendar.Add(b, d.ts, t, pri, how.kind).at.Keys == d.ts.at.Keys + {t};
    case Idle => LinePutOk(d.idle, t, how.place);
  }

  lemma UnlinkOk<T>(d: Tdq<T>, t: T)
    requires QueuesOk(d) && t in Queued(d)
    ensures var d' := Unlink(d, t);
      && QueuesOk(d') && Queued(d') == Queued(d) - {t}
      && d'.load == d.load && d'.transferable == d.transferable && d'.xfer == d.xfer
  {
    if t in d.ts.at {
      RemKeeps(d.ts, t);
      assert Calendar.Rem(d.ts, t).at.Keys == d.ts.at.Keys - {t};
    } else {
      UnlinkLine(d, t);
    }
  }

  lemma UnlinkLine<T>(d: Tdq<T>, t: T)
    requires QueuesOk(d) && t in Queued(d) && t !in d.ts.at
    ensures var d' := Unlink(d, t);
      && QueuesOk(d') && Queued(d') == Queued(d) - {t}
      && d'.load == d.load && d'.transferable == d.transferable && d'.xfer == d.xfer
  {
    if t in d.rt.at {
      LineTakeOk(d.rt, t);
    } else {
      LineTakeOk(d.idle, t);
    }
  }

  lemma SameQueues<T>(d: Tdq<T>, d': Tdq<T>)
    requires QueuesOk(d) && d'.rt == d.rt && d'.ts == d.ts && d'.idle == d.idle
    ensures QueuesOk(d') && Queued(d') == Queued(d)
  {
  }

  lemma RunqAddOk<T>(b: Bands, d: Tdq<T>, t: T, pri: nat, migratable: bool, how: How)
    requires TdqOk(d) && t !in Queued(d) && CanAdd(b, d, pri, how)
    ensures var d' := RunqAdd(b, d, t, pri, migratable, how);
      && TdqOk(d')
      && Queued(d') == Queued(d) + {t}
      && d'.load == d.load
      && d'.transferable == d.transferable + (if migratable then 1 else 0)
      && (t in d'.xfer <==> migratable)
  {
    LinkOk(b, d, t, pri, how);
    CountOk(d, Link(b, d, t, pri, how), t, migratable);
  }

  lemma CountOk<T>(d: Tdq<T>, l: Tdq<T>, t: T, migratable: bool)
    requires TdqOk(d) && t !in Queued(d) && QueuesOk(l) && Queued(l) == Queued(d) + {t}
    requires l.load == d.load && l.transferable == d.transferable && l.xfer == d.xfer
    ensures var d' := Count(l, t, migratable);
      && TdqOk(d')
      && Queued(d') == Queued(d) + {t}
      && d'.load == d.load
      && d'.transferable == d.transferable + (if migratable then 1 else 0)
      && (t in d'.xfer <==> migratable)
  {
    SameQueues(l, Count(l, t, migratable));
    if migratable {
      OneMore(d.xfer, Queued(d), t);
    }
  }

  lemma OneMore<T>(x: set<T>, all: set<T>, t: T)
    requires x <= all && t !in all
    ensures |x + {t}| == |x| + 1 && x + {t} <= all + {t}
  {
  }

  // The thread goes to the queue of its priority, and the other two stay as they are.
  lemma RunqAddPlaces<T>(b: Bands, d: Tdq<T>, t: T, pri: nat, migratable: bool, how: How)
    requires TdqOk(d) && t !in Queued(d) && CanAdd(b, d, pri, how)
    ensures var d' := RunqAdd(b, d, t, pri, migratable, how);
      && (t in d'.rt.at <==> pri < b.minBatch) && (d'.rt != d.rt ==> pri < b.minBatch)
      && (t in d'.ts.at <==> b.minBatch <= pri <= b.maxBatch) && (d'.ts != d.ts ==> b.minBatch <= pri <= b.maxBatch)
      && (t in d'.idle.at <==> pri > b.maxBatch) && (d'.idle != d.idle ==> pri > b.maxBatch)
      && (pri < b.minBatch ==> LinedUp(d.rt, d'.rt, t, how.place))
      && (pri > b.maxBatch ==> LinedUp(d.idle, d'.idle, t, how.place))
  {
  }

  ghost predicate LinedUp<T>(l: Line<T>, l': Line<T>, t: T, p: Place) {
    && Fits(l, p) && l'.at == l.at[t := p.slot]
    && l'.slots == l.slots[p.slot := l.slots[p.slot][..p.pos] + [t] + l.slots[p.slot][p.pos..]]
  }

  lemma RunqRemOk<T>(d: Tdq<T>, t: T)
    requires TdqOk(d) && t in Queued(d)
    ensures var d' := RunqRem(d, t);
      && TdqOk(d')
      && Queued(d') == Queued(d) - {t}
      && d'.load == d.load
      && d'.xfer == d.xfer - {t}
  {
    UnlinkOk(d, t);
    UncountOk(d, Unlink(d, t), t);
  }

  lemma UncountOk<T>(d: Tdq<T>, l: Tdq<T>, t: T)
    requires TdqOk(d) && QueuesOk(l) && Queued(l) == Queued(d) - {t}
    requires l.load == d.load && l.transferable == d.transferable && l.xfer == d.xfer
    ensures var d' := Uncount(l, t);
      && TdqOk(d')
      && Queued(d') == Queued(d) - {t}
      && d'.load == d.load
      && d'.xfer == d.xfer - {t}
  {
    SameQueues(l, Uncount(l, t));
    assert t in d.xfer ==> |d.xfer - {t}| == |d.xfer| - 1;
  }

  lemma TickAllOk<T>(d: Tdq<T>)
    requires TdqOk(d)
    ensures var d' := d.(ts := Tick(d.ts)); TdqOk(d') && Queued(d') == Queued(d)
  {
    TickOk(d.ts);
  }

  // The thread heads a slot, and no slot with a thread is cyclically nearer to the start.
  ghost predicate HeadsNearest<T>(slots: seq<seq<T>>, start: nat, t: T)
    requires |slots| == RQ_NQS && start < RQ_NQS
  {
    exists p :: 0 <= p < RQ_NQS && slots[p] != [] && slots[p][0] == t
      && forall q :: 0 <= q < RQ_NQS && slots[q] != [] ==> Dist(start, p) <= Dist(start, q)
  }

  // Realtime threads come first, then the timeshare queue from its removal index on, then idle threads.
  ghost predicate ChosenRight<T>(d: Tdq<T>, t: T)
    requires QueuesOk(d)
  {
    if d.rt.at != map[] then t in d.rt.at && HeadsNearest(d.rt.slots, 0, t)
    else if d.ts.at != map[] then t in d.ts.at && HeadsNearest(d.ts.slots, d.ts.ridx, t)
    else t in d.idle.at && HeadsNearest(d.idle.slots, 0, t)
  }

  lemma HeadFound<T>(slots: seq<seq<T>>, at: map<T, nat>, start: nat)
    requires |slots| == RQ_NQS && start < RQ_NQS && Placed(slots, at)
    ensures var r := ChooseFrom(slots, start);
      (r.None? <==> at == map[]) && (r.Some? ==> r.value in at && HeadsNearest(slots, start, r.value))
  {
    ChosenIsQueued(slots, start);
    MembersAreKeys(slots, at);
    FirstFromIsNearest(slots, start, 0);
    var p := FirstFrom(slots, start, 0);
    if p == -1 {
      assert at.Keys == {};
    } else {
      assert slots[p][0] in slots[p];
    }
  }

  lemma ChooseOk<T>(d: Tdq<T>)
    requires TdqOk(d)
    ensures Choose(d).None? <==> Queued(d) == {}
    ensures Choose(d).Some? ==> Choose(d).value in Queued(d) && ChosenRight(d, Choose(d).value)
  {
    HeadFound(d.rt.slots, d.rt.at, 0);
    HeadFound(d.ts.slots, d.ts.at, d.ts.ridx);
    HeadFound(d.idle.slots, d.idle.at, 0);
    assert d.rt.at == map[] && d.ts.at == map[] && d.idle.at == map[] ==> Queued(d) == {};
  }

  // Some thread but the next of the timeshare queue may go, or that one may and the scan looks at it.
  ghost predicate Stealable<T>(queued: set<T>, c: Cal<T>, e: set<T>)
    requires Ok(c)
  {
    var next := ChooseFrom(c.slots, c.ridx);
    || (exists t :: t in queued && t in e && next != Some(t))
    || (next.Some? && next.value in e && HeadAgain(c.slots, c.ridx))
  }

  // Realtime threads that may go come first, then those of the timeshare queue that its scan can find, then
  // idle ones; in the realtime and idle queues the first in the order of the slots.
  ghost predicate StolenRight<T>(d: Tdq<T>, e: set<T>, t: T)
    requires QueuesOk(d)
  {
    if exists u :: u in d.rt.at && u in e then t in d.rt.at && IsFirst(Flat(d.rt.slots), e, t)
    else if Stealable(d.ts.at.Keys, d.ts, e) then t in d.ts.at && StealFrom(d.ts.slots, d.ts.ridx, e) == Some(t)
    else t in d.idle.at && IsFirst(Flat(d.idle.slots), e, t)
  }

  // A stolen thread is queued here and may go to the thief, and one is stolen exactly when there is one
  // that the scan can find.
  lemma StealSound<T>(d: Tdq<T>, e: set<T>)
    requires TdqOk(d)
    ensures Steal(d, e).Some? ==> Steal(d, e).value in Queued(d) && Steal(d, e).value in e
    ensures Steal(d, e).Some? <==> Stealable(Queued(d), d.ts, e)
    ensures Steal(d, e).Some? ==> StolenRight(d, e, Steal(d, e).value)
  {
    StealLinearComplete(d.rt.slots, e);
    StealLinearComplete(d.idle.slots, e);
    MembersAreKeys(d.rt.slots, d.rt.at);
    MembersAreKeys(d.ts.slots, d.ts.at);
    MembersAreKeys(d.idle.slots, d.idle.at);
    TimeshareSteal(d.ts, e);
    ChosenIsQueued(d.ts.slots, d.ts.ridx);
    SplitStealable(d.rt.at.Keys, d.ts.at.Keys, d.idle.at.Keys, d.ts, e);
  }

  // Threads of the other two queues are never the next of the timeshare queue.
  lemma SplitStealable<T>(rt: set<T>, ts: set<T>, idle: set<T>, c: Cal<T>, e: set<T>)
    requires Ok(c) && rt !! ts && idle !! ts
    requires ChooseFrom(c.slots, c.ridx).Some? ==> ChooseFrom(c.slots, c.ridx).value in ts
    ensures Stealable(rt + ts + idle, c, e) <==>
      (exists t :: t in rt && t in e) || Stealable(ts, c, e) || (exists t :: t in idle && t in e)
  {
    var next := ChooseFrom(c.slots, c.ridx);
    if t :| t in rt + ts + idle && t in e && next != Some(t) {
      assert t in rt || t in ts || t in idle;
    }
    forall t | (t in rt || t in idle) && t in e ensures Stealable(rt + ts + idle, c, e) {
      assert t in rt + ts + idle && next != Some(t);
    }
  }

  lemma TimeshareSteal<T>(c: Cal<T>, e: set<T>)
    requires Ok(c)
    ensures var r := StealFrom(c.slots, c.ridx, e);
      && (r.Some? ==> r.value in Members(c.slots) && r.value in e)
      && (r.Some? <==> Stealable(Members(c.slots), c, e))
  {
    ChosenIsQueued(c.slots, c.ridx);
    MembersAreKeys(c.slots, c.at);
    if ChooseFrom(c.slots, c.ridx).Some? {
      var head := ChooseFrom(c.slots, c.ridx).value;
      QueuedOnce(c.slots, c.at, head);
      StealFromComplete(c.slots, c.ridx, e, head);
    } else {
      NoneIsEmpty(c.slots, c.ridx);
      NoneToSteal(c.slots, c.ridx, e);
    }
  }
}
