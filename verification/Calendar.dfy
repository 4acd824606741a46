/** The timeshare queue of a ULE CPU: a calendar of slots behind an insert index and a removal index. */
module Calendar {
  import opened Queues
  import Arith

  // PRI_MIN_BATCH and PRI_MAX_BATCH.
  datatype Bands = Bands(minBatch: nat, maxBatch: nat) {
    predicate Ok() {
      minBatch <= maxBatch < 256
    }

    // PRI_BATCH_RANGE
    function Range(): int {
      maxBatch - minBatch + 1
    }

    predicate Batch(pri: nat) {
      minBatch <= pri <= maxBatch
    }
  }

  // tdq_timeshare with td_rqindex of its threads, tdq_idx and tdq_ridx.
  datatype Cal<T> = Cal(slots: seq<seq<T>>, at: map<T, nat>, idx: nat, ridx: nat)

  // The insert index is the removal index or one ahead of it, and ahead only while slot ridx drains.
  ghost predicate Ok<T>(c: Cal<T>) {
    && |c.slots| == RQ_NQS
    && Placed(c.slots, c.at)
    && c.idx < RQ_NQS && c.ridx < RQ_NQS
    && (c.idx == c.ridx || (c.idx == (c.ridx + 1) % RQ_NQS && c.slots[c.ridx] != []))
  }

  // How a thread is added: flags without SRQ_BORROWING and SRQ_PREEMPTED, with SRQ_BORROWING alone, or
  // with SRQ_PREEMPTED.
  datatype Kind = Ordinary | Borrowing | Preempted

  function Offset(b: Bands, pri: nat): nat
    requires b.Ok() && b.Batch(pri)
  {
    RQ_NQS * (pri - b.minBatch) / b.Range()
  }

  // The slot tdq_runq_add picks; pri is a u_char there, so pri - 1 wraps at 0.
  function SlotFor(b: Bands, pri: nat, kind: Kind, idx: nat, ridx: nat): nat
    requires b.Ok() && b.Batch(pri)
  {
    if kind != Ordinary then ridx else OrdinarySlot(Offset(b, pri), idx, ridx)
  }

  function OrdinarySlot(offset: nat, idx: nat, ridx: nat): nat {
    var p := (offset + idx) % RQ_NQS;
    if ridx != idx && p == ridx then (p + 255) % 256 % RQ_NQS else p
  }

  function AddTo<T>(c: Cal<T>, t: T, p: nat, kind: Kind): Cal<T>
    requires p < |c.slots|
  {
    c.(slots := Put(c.slots, p, if kind == Preempted then 0 else |c.slots[p]|, t), at := c.at[t := p])
  }

  // The timeshare branch of tdq_runq_add.
  function Add<T>(b: Bands, c: Cal<T>, t: T, pri: nat, kind: Kind): Cal<T>
    requires b.Ok() && b.Batch(pri) && |c.slots| == RQ_NQS && c.ridx < RQ_NQS
  {
    AddTo(c, t, SlotFor(b, pri, kind, c.idx, c.ridx), kind)
  }

  // The timeshare branch of tdq_runq_rem: runq_remove_idx is given tdq_ridx only while the indices differ.
  function Rem<T(==)>(c: Cal<T>, t: T): Cal<T>
    requires t in c.at && c.at[t] < |c.slots|
  {
    var slots := Take(c.slots, c.at[t], t);
    var ridx := if c.idx != c.ridx && slots[c.at[t]] == [] && c.ridx == c.at[t] then (c.at[t] + 1) % RQ_NQS else c.ridx;
    Cal(slots, c.at - {t}, c.idx, ridx)
  }

  // The index rotation of sched_clock.
  function Tick<T(==)>(c: Cal<T>): Cal<T>
    requires c.ridx < |c.slots|
  {
    if c.idx == c.ridx then
      var idx := (c.idx + 1) % RQ_NQS;
      Cal(c.slots, c.at, idx, if c.slots[c.ridx] == [] then idx else c.ridx)
    else c
  }

  function Lag<T>(c: Cal<T>, t: T): nat
    requires t in c.at && c.at[t] < RQ_NQS && c.ridx < RQ_NQS
  {
    Dist(c.ridx, c.at[t])
  }

  lemma OffsetRange(b: Bands, pri: nat)
    requires b.Ok() && b.Batch(pri)
    ensures Offset(b, pri) < RQ_NQS
  {
    Arith.DivBelow(RQ_NQS * (pri - b.minBatch), b.Range(), RQ_NQS);
  }

  // The batch band is spread over the whole queue: a priority lies in its share of the 64 slots.
  ghost predicate Spreads(b: Bands, pri: nat, o: int)
    requires b.Ok()
  {
    var range := b.maxBatch - b.minBatch + 1;
    o * range <= 64 * (pri - b.minBatch) < (o + 1) * range
  }

  lemma OffsetSpreads(b: Bands, pri: nat)
    requires b.Ok() && b.Batch(pri)
    ensures Spreads(b, pri, Offset(b, pri))
  {
    Arith.DivRange(RQ_NQS * (pri - b.minBatch), b.Range());
  }

  // The best batch priority comes first, and with at most 64 of them no two share an offset.
  lemma FirstSpreadsToZero(b: Bands, o: int)
    requires b.Ok() && Spreads(b, b.minBatch, o)
    ensures o == 0
  {
    Arith.LtMul(0, o + 1, b.Range());
    if o > 0 {
      Arith.LtMul(o, 1, b.Range());
    }
  }

  lemma SpreadsApart(b: Bands, p: nat, q: nat, o: int, o': int)
    requires b.Ok() && b.Batch(p) && b.Batch(q) && p < q && b.Range() <= 64
    requires Spreads(b, p, o) && Spreads(b, q, o')
    ensures o < o'
  {
    assert (o + 1) * b.Range() == o * b.Range() + b.Range();
    assert o * b.Range() + b.Range() <= 64 * (p - b.minBatch) + 64 <= 64 * (q - b.minBatch) < (o' + 1) * b.Range();
    Arith.LtMul(o + 1, o' + 1, b.Range());
  }

  lemma OffsetMonotone(b: Bands, p: nat, q: nat)
    requires b.Ok() && b.Batch(p) && b.Batch(q) && p <= q
    ensures Offset(b, p) <= Offset(b, q)
  {
    Arith.DivMonotone(RQ_NQS * (p - b.minBatch), RQ_NQS * (q - b.minBatch), b.Range());
  }

  // The distance an ordinary thread has from the removal index: its offset, one further (but never more
  // than 63) while that slot drains.
  ghost predicate LandsAt(b: Bands, pri: nat, idx: nat, ridx: nat, d: int)
    requires b.Ok()
  {
    if idx == ridx then Spreads(b, pri, d)
    else d <= 63 && (Spreads(b, pri, d - 1) || (d == 63 && Spreads(b, pri, 63)))
  }

  // So it never lands in the slot that drains.
  lemma OrdinaryPlacement(b: Bands, pri: nat, idx: nat, ridx: nat)
    requires b.Ok() && b.Batch(pri) && ridx < RQ_NQS && (idx == ridx || idx == (ridx + 1) % RQ_NQS)
    ensures var p := SlotFor(b, pri, Ordinary, idx, ridx); var o := Offset(b, pri);
      && p < RQ_NQS
      && Dist(ridx, p) == (if idx == ridx then o else if o + 1 <= 63 then o + 1 else 63)
      && LandsAt(b, pri, idx, ridx, Dist(ridx, p))
      && (idx != ridx ==> p != ridx)
  {
    OffsetRange(b, pri);
    OffsetSpreads(b, pri);
    PlacementOf(Offset(b, pri), idx, ridx);
  }

  // The best batch priority lands in the slot of the removal index, and behind it while that slot drains.
  lemma BestLandsFirst(b: Bands, idx: nat, ridx: nat, d: int)
    requires b.Ok() && LandsAt(b, b.minBatch, idx, ridx, d)
    ensures d == if idx == ridx then 0 else 1
  {
    if idx == ridx {
      FirstSpreadsToZero(b, d);
    } else if Spreads(b, b.minBatch, d - 1) {
      FirstSpreadsToZero(b, d - 1);
    } else {
      FirstSpreadsToZero(b, 63);
    }
  }

  // With at most 64 batch priorities a better one lands strictly closer.
  lemma BetterLandsCloser(b: Bands, p: nat, q: nat, idx: nat, d: int, d': int)
    requires b.Ok() && b.Batch(p) && b.Batch(q) && p < q && b.Range() <= 64
    requires LandsAt(b, p, idx, idx, d) && LandsAt(b, q, idx, idx, d')
    ensures d < d'
  {
    SpreadsApart(b, p, q, d, d');
  }

  lemma PlacementOf(o: nat, idx: nat, ridx: nat)
    requires o < RQ_NQS && ridx < RQ_NQS && (idx == ridx || idx == (ridx + 1) % RQ_NQS)
    ensures var p := OrdinarySlot(o, idx, ridx);
      && p < RQ_NQS
      && Dist(ridx, p) == (if idx == ridx then o else if o + 1 <= 63 then o + 1 else 63)
      && (idx != ridx ==> p != ridx)
  {
    OneTurn(ridx + 1);
    OneTurn(o + idx);
    var p := if o + idx < RQ_NQS then o + idx else o + idx - RQ_NQS;
    StepBack(p);
    assert OrdinarySlot(o, idx, ridx) ==
      if ridx != idx && p == ridx then (if p == 0 then 63 else p - 1) else p;
  }

  lemma OneTurn(x: nat)
    requires x < 2 * RQ_NQS
    ensures x % RQ_NQS == if x < RQ_NQS then x else x - RQ_NQS
  {
  }

  lemma StepBack(p: nat)
    requires p < RQ_NQS
    ensures (p + 255) % 256 % RQ_NQS == if p == 0 then 63 else p - 1
  {
  }

  lemma PlacementMonotone(b: Bands, p: nat, q: nat, idx: nat, ridx: nat)
    requires b.Ok() && b.Batch(p) && b.Batch(q) && p <= q
    requires ridx < RQ_NQS && (idx == ridx || idx == (ridx + 1) % RQ_NQS)
    ensures SlotFor(b, p, Ordinary, idx, ridx) < RQ_NQS && SlotFor(b, q, Ordinary, idx, ridx) < RQ_NQS
    ensures Dist(ridx, SlotFor(b, p, Ordinary, idx, ridx)) <= Dist(ridx, SlotFor(b, q, Ordinary, idx, ridx))
  {
    OffsetMonotone(b, p, q);
    OrdinaryPlacement(b, p, idx, ridx);
    OrdinaryPlacement(b, q, idx, ridx);
  }

  lemma AddOk<T>(b: Bands, c: Cal<T>, t: T, pri: nat, kind: Kind)
    requires b.Ok() && b.Batch(pri) && Ok(c) && t !in c.at
    ensures SlotFor(b, pri, kind, c.idx, c.ridx) < RQ_NQS
    ensures Ok(Add(b, c, t, pri, kind))
  {
    OrdinaryPlacement(b, pri, c.idx, c.ridx);
    var p := SlotFor(b, pri, kind, c.idx, c.ridx);
    PutPlaced(c.slots, c.at, p, if kind == Preempted then 0 else |c.slots[p]|, t);
  }

  // Where an added thread stands in its slot: first if it was preempted, else last; the rest is as it was.
  lemma AddPlaces<T>(b: Bands, c: Cal<T>, t: T, pri: nat, kind: Kind)
    requires b.Ok() && b.Batch(pri) && Ok(c) && t !in c.at
    ensures var c' := Add(b, c, t, pri, kind);
      && t in c'.at && c'.at == c.at[t := c'.at[t]] && c'.at[t] < |c'.slots| == |c.slots|
      && c'.idx == c.idx && c'.ridx == c.ridx
      && c'.slots == c.slots[c'.at[t] := if kind == Preempted then [t] + c.slots[c'.at[t]] else c.slots[c'.at[t]] + [t]]
      && (kind != Ordinary ==> c'.at[t] == c.ridx)
      && (kind == Ordinary ==> LandsAt(b, pri, c.idx, c.ridx, Lag(c', t)))
  {
    OrdinaryPlacement(b, pri, c.idx, c.ridx);
    var p := SlotFor(b, pri, kind, c.idx, c.ridx);
    assert InsertAt(c.slots[p], 0, t) == [t] + c.slots[p];
    assert InsertAt(c.slots[p], |c.slots[p]|, t) == c.slots[p] + [t];
  }

  lemma RemKeeps<T>(c: Cal<T>, t: T)
    requires Ok(c) && t in c.at
    ensures Ok(Rem(c, t))
  {
    TakePlaced(c.slots, c.at, t);
  }

  lemma RemOk<T>(c: Cal<T>, t: T)
    requires Ok(c) && t in c.at
    ensures Ok(Rem(c, t))
    ensures forall u :: u in Rem(c, t).at ==> u in c.at && Lag(Rem(c, t), u) <= Lag(c, u)
  {
    RemKeeps(c, t);
    forall u | u in Rem(c, t).at ensures u in c.at && Lag(Rem(c, t), u) <= Lag(c, u) {
      RemLag(c, t, u);
    }
  }

  lemma RemLag<T>(c: Cal<T>, t: T, u: T)
    requires Ok(c) && t in c.at && Ok(Rem(c, t)) && u in Rem(c, t).at
    ensures u in c.at && Lag(Rem(c, t), u) <= Lag(c, u)
  {
    var c' := Rem(c, t);
    if c'.ridx != c.ridx {
      assert c'.slots[c.ridx] == [] && u in c'.slots[c'.at[u]];
    }
  }

  lemma TickOk<T>(c: Cal<T>)
    requires Ok(c)
    ensures Ok(Tick(c))
    ensures forall u :: u in c.at ==> Lag(Tick(c), u) <= Lag(c, u)
  {
    forall u | u in c.at ensures Lag(Tick(c), u) <= Lag(c, u) {
      if Tick(c).ridx != c.ridx {
        assert c.slots[c.ridx] == [] && u in c.slots[c.at[u]];
      }
    }
  }
}
