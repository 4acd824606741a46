/** The long-term load balancer: sched_balance_group and sched_balance_pair of sched_ule.c. */
module Balancer {
  import opened Queues
  import opened Calendar
  import opened Tdqs
  import opened Accounts
  import opened Smp
  import Topology

  function SumOver(f: int -> int, s: seq<int>): int {
    if s == [] then 0 else f(s[0]) + SumOver(f, s[1..])
  }

  lemma {:induction false} SumUpdate(f: int -> int, s: seq<int>, i: nat, v: int)
    requires i < |s|
    ensures SumOver(f, s[i := v]) == SumOver(f, s) - f(s[i]) + f(v)
  {
    if i > 0 {
      SumUpdate(f, s[1..], i - 1, v);
      assert s[i := v][1..] == s[1..][i - 1 := v];
    } else {
      assert s[i := v][1..] == s[1..];
    }
  }

  function Loads(m: Machine): (l: seq<int>)
    ensures |l| == |m.cpus| && forall c :: 0 <= c < |l| ==> l[c] == m.cpus[c].load
  {
    seq(|m.cpus|, c requires 0 <= c < |m.cpus| => m.cpus[c].load)
  }

  function Itself(x: int): int {
    x
  }

  function Square(x: int): int {
    x * x
  }

  function Total(m: Machine): int {
    SumOver(Itself, Loads(m))
  }

  // The lower, the more even the loads are at a given total.
  function Unevenness(m: Machine): int {
    SumOver(Square, Loads(m))
  }

  // The threads and what they do are the same; only the CPU that queues a runnable thread may differ, and
  // it is one the thread may use.
  ghost predicate SameThreads(m: Machine, m': Machine) {
    && m'.running == m.running && |m'.cpus| == |m.cpus| && m'.th.Keys == m.th.Keys
    && forall t :: t in m.th ==>
         && m'.th[t] == m.th[t].(cpu := m'.th[t].cpu)
         && (|| m'.th[t].cpu == m.th[t].cpu
             || (m.th[t].state == OnRunq && !m.th[t].pinned && m'.th[t].cpu in m.th[t].allowed))
  }

  // One thread's load has gone from one CPU to another.
  ghost predicate Shifted(l: seq<int>, l': seq<int>, from: nat, to: nat) {
    from < |l| && to < |l| && from != to && l' == l[from := l[from] - 1][to := l[to] + 1]
  }

  lemma MoveLoads(m: Machine, m': Machine, t: nat, from: nat, to: nat)
    requires Moved(m, m', t, from, to)
    ensures Shifted(Loads(m), Loads(m'), from, to)
  {
    assert |Books(m'.cpus)| == |Books(m.cpus)|;
    assert forall c :: 0 <= c < |m'.cpus| ==> m'.cpus[c].load == Books(m'.cpus)[c].load;
  }

  // A move from a more loaded CPU to a less loaded one keeps the threads and the total load, and makes
  // the loads no more uneven.
  lemma MoveEvens(m: Machine, m': Machine, t: nat, from: nat, to: nat)
    requires Moved(m, m', t, from, to) && m.cpus[from].load > m.cpus[to].load
    ensures SameThreads(m, m') && Total(m') == Total(m) && Unevenness(m') <= Unevenness(m)
    ensures Shifted(Loads(m), Loads(m'), from, to)
  {
    MoveLoads(m, m', t, from, to);
    ShiftEvens(Loads(m), Loads(m'), from, to);
  }

  lemma ShiftEvens(l: seq<int>, l': seq<int>, from: nat, to: nat)
    requires Shifted(l, l', from, to) && l[from] > l[to]
    ensures SumOver(Itself, l') == SumOver(Itself, l) && SumOver(Square, l') <= SumOver(Square, l)
  {
    var one := l[from := l[from] - 1];
    SumUpdate(Itself, l, from, l[from] - 1);
    SumUpdate(Itself, one, to, l[to] + 1);
    SumUpdate(Square, l, from, l[from] - 1);
    SumUpdate(Square, one, to, l[to] + 1);
    SquaresShrink(l[from], l[to]);
  }

  lemma SquaresShrink(h: int, l: int)
    requires h > l
    ensures Square(h - 1) + Square(l + 1) <= Square(h) + Square(l)
  {
    assert Square(h - 1) == Square(h) - 2 * h + 1;
    assert Square(l + 1) == Square(l) + 2 * l + 1;
  }

  lemma SameThreadsAgain(m: Machine, m1: Machine, m2: Machine)
    requires SameThreads(m, m1) && SameThreads(m1, m2)
    ensures SameThreads(m, m2)
  {
  }

  // Where the runq_add in force puts a thread that tdq_move hands over with SRQ_YIELDING.
  type Placement = (Machine, nat, nat) -> How

  ghost predicate Places(b: Bands, place: Placement) {
    forall m, from, to :: Inv(m) && m.Cpu(from) && m.Cpu(to) && from != to ==>
      place(m, from, to).kind == Ordinary && CanMove(b, m, from, to, place(m, from, to))
  }

  // What balancing keeps.
  ghost predicate Balances(m: Machine, m': Machine) {
    Inv(m') && SameThreads(m, m') && Total(m') == Total(m) && Unevenness(m') <= Unevenness(m)
  }

  // No thread queued on high may be stolen for low.
  ghost predicate NoneFor(m: Machine, high: nat, low: nat) {
    high < |m.cpus| && m.cpus[high].ts.ridx <= |m.cpus[high].ts.slots|
    && Steal(m.cpus[high], MayMove(m.th, low)).None?
  }

  // sched_balance_pair
  method BalancePair(b: Bands, m: Machine, high: nat, low: nat, place: Placement) returns (m': Machine, moved: bool)
    requires Inv(m) && m.Cpu(high) && m.Cpu(low) && high != low && Places(b, place)
    ensures Balances(m, m') && (!moved ==> m' == m)
    ensures moved ==> m.cpus[high].load > m.cpus[low].load && exists t :: Moved(m, m', t, high, low)
    ensures moved ==> Shifted(Loads(m), Loads(m'), high, low)
    ensures !moved && m.cpus[high].transferable != 0 && m.cpus[high].load > m.cpus[low].load ==> NoneFor(m, high, low)
  {
    m', moved := m, false;
    if m.cpus[high].transferable != 0 && m.cpus[high].load > m.cpus[low].load {
      var td := Steal(m.cpus[high], MayMove(m.th, low));
      m', moved := Move(b, m, high, low, place(m, high, low)), td.Some?;
      if moved {
        MoveEvens(m, m', td.value, high, low);
      }
    }
  }

  lemma BalancesAgain(m: Machine, m1: Machine, m2: Machine)
    requires Balances(m, m1) && Balances(m1, m2)
    ensures Balances(m, m2)
  {
    SameThreadsAgain(m, m1, m2);
  }

  // What the topology searches see.
  function Snapshot(m: Machine): (s: Topology.Cpus)
    ensures s.Ok() && s.load == Loads(m)
    ensures forall c :: 0 <= c < |m.cpus| ==> s.transferable[c] == m.cpus[c].transferable
  {
    Topology.Cpus(Loads(m), seq(|m.cpus|, _ => 0),
                  seq(|m.cpus|, c requires 0 <= c < |m.cpus| => m.cpus[c].transferable))
  }

  // A tree of the machine's CPUs, on which no sum of loads overflows while there are total threads.
  ghost predicate Searchable(m: Machine, g: Topology.Group, total: int) {
    && |m.cpus| == |m.running| && Topology.WellFormed(g, |m.cpus|) && Topology.Apart(g)
    && 0 <= Total(m) == total && 256 * total < Topology.INT_MAX && 256 * total * |g.mask| < Topology.INT_MAX
  }

  lemma {:induction false} EachAtMostSum(l: seq<int>)
    requires forall i :: 0 <= i < |l| ==> l[i] >= 0
    ensures SumOver(Itself, l) >= 0 && forall i :: 0 <= i < |l| ==> l[i] <= SumOver(Itself, l)
  {
    if l != [] {
      EachAtMostSum(l[1..]);
      assert forall i :: 0 < i < |l| ==> l[i] == l[1..][i - 1];
    }
  }

  lemma SearchFits(m: Machine, g: Topology.Group, total: nat)
    requires Inv(m) && Searchable(m, g, total)
    ensures Topology.NoOverflow(Snapshot(m), g, total)
  {
    forall c | 0 <= c < |m.cpus| ensures Loads(m)[c] >= 0 {
      assert Agrees(Books(m.cpus)[c], m.running[c], m.th, c);
    }
    EachAtMostSum(Loads(m));
  }

  ghost predicate Tried(m: Machine, high: nat, cpus: set<nat>, stop: bool)
    requires high < |m.cpus|
  {
    forall c :: c in cpus && c < |m.cpus| ==>
      m.cpus[c].load >= m.cpus[high].load || (!stop && NoneFor(m, high, c))
  }

  // The search for a low partner of high, from label nextlow of sched_balance_group.  stop: there was no
  // less loaded CPU.  If no thread moves, none on high may go to any less loaded CPU of the mask.
  method TryLows(b: Bands, m: Machine, high: nat, hmask: set<nat>, g: Topology.Group, place: Placement,
                 ghost total: nat)
    returns (m': Machine, low: Option<nat>, stop: bool)
    requires Inv(m) && m.Cpu(high) && high !in hmask && Places(b, place) && Searchable(m, g, total)
    requires m.cpus[high].transferable != 0
    ensures Balances(m, m')
    ensures low.Some? ==> low.value in hmask && m.Cpu(low.value) && !stop
    ensures low.Some? ==> Shifted(Loads(m), Loads(m'), high, low.value) && exists t :: Moved(m, m', t, high, low.value)
    ensures low.None? ==> m' == m && Tried(m, high, hmask * g.mask, stop)
  {
    var lmask, anylow := hmask, true;
    while true
      invariant lmask <= hmask && (anylow ==> lmask == hmask)
      invariant forall c :: c in hmask && c !in lmask ==> NoneFor(m, high, c)
      decreases |lmask|
    {
      var l := NextLow(m, high, lmask, g, total);
      if l == None {
        return m, None, anylow;
      }
      var moved;
      m', moved := BalancePair(b, m, high, l.value, place);
      if moved {
        return m', l, false;
      }
      Fewer(lmask - {l.value}, lmask, l.value);
      lmask := lmask - {l.value};
      anylow := false;
    }
  }

  // The search itself: a CPU of the mask less loaded than high, if there is one.
  method NextLow(m: Machine, high: nat, lmask: set<nat>, g: Topology.Group, ghost total: nat) returns (low: Option<nat>)
    requires Inv(m) && m.Cpu(high) && Searchable(m, g, total)
    ensures low.Some? ==> low.value in lmask && m.Cpu(low.value) && m.cpus[low.value].load < m.cpus[high].load
    ensures low.None? ==> forall c :: c in lmask * g.mask && c < |m.cpus| ==> m.cpus[c].load >= m.cpus[high].load
  {
    SearchFits(m, g, total);
    var s, q := Snapshot(m), Topology.Low(lmask, high, -1, m.cpus[high].load - 1);
    var l := Topology.SchedLowest(g, s, q, total);
    low := if l == -1 then None else Some(l);
    forall c | l == -1 && c in lmask * g.mask && c < |m.cpus| ensures m.cpus[c].load >= m.cpus[high].load {
      assert c !in Topology.LowSet(g, s, q);
    }
  }

  // There is no donor, or there is one on a most loaded path no thread of which may go to any less loaded
  // CPU.
  ghost predicate Hopeless(m: Machine, g: Topology.Group, all: set<nat>)
    requires Topology.WellFormed(g, |m.cpus|)
  {
    var s := Snapshot(m);
    var donors := Topology.HighSet(g, s, Topology.High(all, 2));
    donors == {} ||
    exists high ::
      && high in donors && high < |m.cpus| && Topology.LeastPath(Topology.HighWeights(s), donors, g, high)
      && Tried(m, high, (all - {high}) * g.mask, false)
  }

  // What one pass of the loop did: the donor, the receiver if there was one, and the machine and mask after
  // the pass.
  datatype Pass = Pass(high: nat, low: Option<nat>, m: Machine, mask: set<nat>)

  // The donor was on a most loaded path of the mask.  It gave one thread to a less loaded CPU of the mask,
  // and both left the mask; or it had no thread that may go to any less loaded CPU of the mask, and left
  // alone.
  ghost predicate IsPass(g: Topology.Group, m: Machine, mask: set<nat>, p: Pass)
    requires Topology.WellFormed(g, |m.cpus|)
  {
    var s := Snapshot(m);
    var donors := Topology.HighSet(g, s, Topology.High(mask, 2));
    && |p.m.cpus| == |m.cpus| && p.high < |m.cpus|
    && p.high in donors && Topology.LeastPath(Topology.HighWeights(s), donors, g, p.high)
    && match p.low
       case None => p.m == m && p.mask == mask - {p.high} && Tried(m, p.high, p.mask * g.mask, false)
       case Some(low) =>
         && low in mask && low != p.high && p.mask == mask - {p.high} - {low}
         && Shifted(Loads(m), Loads(p.m), p.high, low) && exists t :: Moved(m, p.m, t, p.high, low)
  }

  ghost predicate Passes(g: Topology.Group, m: Machine, mask: set<nat>, ps: seq<Pass>, m': Machine, mask': set<nat>)
    requires Topology.WellFormed(g, |m.cpus|)
    decreases |ps|
  {
    if ps == [] then m' == m && mask' == mask
    else IsPass(g, m, mask, ps[0]) && Passes(g, ps[0].m, ps[0].mask, ps[1..], m', mask')
  }

  lemma {:induction false} PassesMore(g: Topology.Group, m: Machine, mask: set<nat>, ps: seq<Pass>, m': Machine,
                                      mask': set<nat>, p: Pass)
    requires Topology.WellFormed(g, |m.cpus|) && Passes(g, m, mask, ps, m', mask')
    requires |m'.cpus| == |m.cpus| && IsPass(g, m', mask', p)
    ensures Passes(g, m, mask, ps + [p], p.m, p.mask)
    decreases |ps|
  {
    if ps == [] {
      assert ([p])[1..] == [];
      assert ps + [p] == [p];
    } else {
      PassesMore(g, ps[0].m, ps[0].mask, ps[1..], m', mask', p);
      assert (ps + [p])[1..] == ps[1..] + [p];
    }
  }

  function Transfers(ps: seq<Pass>): nat {
    if ps == [] then 0 else Transfers(ps[..|ps| - 1]) + if ps[|ps| - 1].low.Some? then 1 else 0
  }

  ghost predicate Refused(ps: seq<Pass>, c: nat) {
    exists i :: 0 <= i < |ps| && ps[i].high == c && ps[i].low.None?
  }

  // A CPU that left the mask gave one thread, or received one, or was a donor refused everywhere; the load
  // of every other is what it was.
  ghost predicate EachOnce(l0: seq<int>, l: seq<int>, mask0: set<nat>, mask: set<nat>, ps: seq<Pass>) {
    && |l| == |l0| && mask <= mask0
    && forall c :: 0 <= c < |l| ==>
         if c in mask0 && c !in mask then
           l[c] == l0[c] - 1 || l[c] == l0[c] + 1 || (l[c] == l0[c] && Refused(ps, c))
         else l[c] == l0[c]
  }

  lemma {:induction false} PassesEachOnce(g: Topology.Group, m: Machine, mask: set<nat>, ps: seq<Pass>, m': Machine,
                                          mask': set<nat>)
    requires Topology.WellFormed(g, |m.cpus|) && Passes(g, m, mask, ps, m', mask')
    ensures EachOnce(Loads(m), Loads(m'), mask, mask', ps)
    decreases |ps|
  {
    if ps != [] {
      PassesEachOnce(g, ps[0].m, ps[0].mask, ps[1..], m', mask');
      PassThen(Loads(m), Loads(ps[0].m), Loads(m'), mask, mask', ps);
    }
  }

  lemma PassThen(l0: seq<int>, l1: seq<int>, l: seq<int>, mask: set<nat>, mask': set<nat>, ps: seq<Pass>)
    requires ps != [] && ps[0].high in mask && EachOnce(l1, l, ps[0].mask, mask', ps[1..])
    requires match ps[0].low
      case None => l1 == l0 && ps[0].mask == mask - {ps[0].high}
      case Some(low) => low in mask && ps[0].mask == mask - {ps[0].high} - {low} && Shifted(l0, l1, ps[0].high, low)
    ensures EachOnce(l0, l, mask, mask', ps)
  {
    forall c | Refused(ps[1..], c) ensures Refused(ps, c) {
      var i :| 0 <= i < |ps| - 1 && ps[1..][i].high == c && ps[1..][i].low.None?;
      assert ps[i + 1].high == c && ps[i + 1].low.None?;
    }
    assert ps[0].low.None? ==> Refused(ps, ps[0].high);
  }

  // Without a transfer the machine is what it was, and the first donor, if any, was refused everywhere.
  lemma {:induction false} NoTransfer(g: Topology.Group, m: Machine, mask: set<nat>, ps: seq<Pass>, m': Machine,
                                      mask': set<nat>)
    requires Topology.WellFormed(g, |m.cpus|) && Passes(g, m, mask, ps, m', mask') && Transfers(ps) == 0
    ensures m' == m && (ps != [] ==> Hopeless(m, g, mask))
    decreases |ps|
  {
    if ps != [] {
      TransfersFirst(ps);
      NoTransfer(g, ps[0].m, ps[0].mask, ps[1..], m', mask');
    }
  }

  lemma {:induction false} TransfersFirst(ps: seq<Pass>)
    requires ps != []
    ensures Transfers(ps) == Transfers(ps[1..]) + if ps[0].low.Some? then 1 else 0
    decreases |ps|
  {
    if |ps| > 1 {
      TransfersFirst(ps[..|ps| - 1]);
      assert ps[..|ps| - 1][1..] == ps[1..][..|ps| - 2];
    }
  }

  // Why the loop ends: no donor is left in the mask, no CPU is, or the last donor found no CPU of the mask
  // less loaded than itself.
  ghost predicate Finished(g: Topology.Group, m: Machine, mask: set<nat>, ps: seq<Pass>)
    requires Topology.WellFormed(g, |m.cpus|)
  {
    || Topology.HighSet(g, Snapshot(m), Topology.High(mask, 2)) == {}
    || (ps != [] && Exhausted(g, m, mask, ps[|ps| - 1]))
  }

  ghost predicate Exhausted(g: Topology.Group, m: Machine, mask: set<nat>, p: Pass) {
    p.low.None? && p.m == m && p.mask == mask && p.high < |m.cpus|
    && (mask == {} || forall c :: c in mask * g.mask && c < |m.cpus| ==> m.cpus[c].load >= m.cpus[p.high].load)
  }

  // One pass of the loop of sched_balance_group, with the donor found; done: the loop ends.
  method OneDonor(b: Bands, m: Machine, high: nat, hmask: set<nat>, g: Topology.Group, place: Placement,
                  ghost total: nat)
    returns (m': Machine, hmask': set<nat>, low: Option<nat>, done: bool)
    requires Inv(m) && m.Cpu(high) && high in hmask && Places(b, place) && Searchable(m, g, total)
    requires m.cpus[high].transferable != 0
    ensures Balances(m, m')
    ensures low.None? ==> m' == m && hmask' == hmask - {high} && Tried(m, high, hmask' * g.mask, false)
    ensures low.None? && done ==>
      hmask' == {} || forall c :: c in hmask' * g.mask && c < |m.cpus| ==> m.cpus[c].load >= m.cpus[high].load
    ensures low.Some? ==> low.value in hmask && low.value != high && hmask' == hmask - {high} - {low.value} && !done
    ensures low.Some? ==> Shifted(Loads(m), Loads(m'), high, low.value) && exists t :: Moved(m, m', t, high, low.value)
  {
    hmask', m', low, done := hmask - {high}, m, None, true;
    if hmask' == {} {
      return;
    }
    m', low, done := TryLows(b, m, high, hmask', g, place, total);
    if low.Some? {
      hmask' := hmask' - {low.value};
    }
  }

  // A pass, or none for want of a donor.
  ghost predicate Passed(g: Topology.Group, m: Machine, mask: set<nat>, p: Option<Pass>, m': Machine, mask': set<nat>,
                         moved: bool, done: bool)
    requires Topology.WellFormed(g, |m.cpus|)
  {
    match p
    case None =>
      m' == m && mask' == mask && !moved && done && Topology.HighSet(g, Snapshot(m), Topology.High(mask, 2)) == {}
    case Some(q) =>
      && IsPass(g, m, mask, q) && q.m == m' && q.mask == mask'
      && (moved <==> q.low.Some?) && (done ==> Exhausted(g, m', mask', q))
  }

  lemma Noted(g: Topology.Group, m0: Machine, all: set<nat>, ps: seq<Pass>, m: Machine, mask: set<nat>, p: Option<Pass>,
              m': Machine, mask': set<nat>, moved: bool, done: bool)
    returns (ps': seq<Pass>)
    requires Topology.WellFormed(g, |m0.cpus|) && |m.cpus| == |m0.cpus| && Passes(g, m0, all, ps, m, mask)
    requires Passed(g, m, mask, p, m', mask', moved, done)
    ensures |m'.cpus| == |m0.cpus| && Passes(g, m0, all, ps', m', mask') && (done ==> Finished(g, m', mask', ps'))
    ensures Transfers(ps') == Transfers(ps) + if moved then 1 else 0
  {
    ps' := ps;
    if p.Some? {
      PassesMore(g, m0, all, ps, m, mask, p.value);
      assert (ps + [p.value])[..|ps|] == ps;
      ps' := ps + [p.value];
    }
  }

  // The pass with its search for a donor.
  method OnePass(b: Bands, m: Machine, hmask: set<nat>, g: Topology.Group, place: Placement, ghost total: nat)
    returns (m': Machine, hmask': set<nat>, moved: bool, done: bool, ghost p: Option<Pass>)
    requires Inv(m) && Places(b, place) && Searchable(m, g, total)
    ensures Balances(m, m') && (!done ==> |hmask'| < |hmask|)
    ensures Passed(g, m, hmask, p, m', hmask', moved, done)
  {
    SearchFits(m, g, total);
    var high := Topology.SchedHighest(g, Snapshot(m), Topology.High(hmask, 2));
    if high == -1 {
      return m, hmask, false, true, None;
    }
    var low;
    m', hmask', low, done := OneDonor(b, m, high, hmask, g, place, total);
    moved, p := low.Some?, Some(Pass(high, low, m', hmask'));
    Fewer(hmask', hmask, high);
    DonorPass(g, m, hmask, p.value, done);
  }

  lemma DonorPass(g: Topology.Group, m: Machine, mask: set<nat>, p: Pass, done: bool)
    requires Topology.WellFormed(g, |m.cpus|) && p.high < |m.cpus| && |p.m.cpus| == |m.cpus|
    requires var s := Snapshot(m);
      var donors := Topology.HighSet(g, s, Topology.High(mask, 2));
      p.high in donors && Topology.LeastPath(Topology.HighWeights(s), donors, g, p.high)
    requires match p.low
      case None =>
        && p.m == m && p.mask == mask - {p.high} && Tried(m, p.high, p.mask * g.mask, false)
        && (done ==> p.mask == {} ||
                     forall c :: c in p.mask * g.mask && c < |m.cpus| ==> m.cpus[c].load >= m.cpus[p.high].load)
      case Some(low) =>
        && low in mask && low != p.high && p.mask == mask - {p.high} - {low} && !done
        && Shifted(Loads(m), Loads(p.m), p.high, low) && exists t :: Moved(m, p.m, t, p.high, low)
    ensures Passed(g, m, mask, Some(p), p.m, p.mask, p.low.Some?, done)
  {
  }

  lemma Fewer(a: set<nat>, b: set<nat>, x: nat)
    requires a <= b - {x} && x in b
    ensures |a| < |b|
  {
    assert b - {x} == a + (b - {x} - a);
  }

  // sched_balance_group, on the CPUs of the group; all is the full cpuset.  moves is the number of
  // transfers, mask the CPUs left at the end, and ps what the passes did.
  method BalanceGroup(b: Bands, m0: Machine, g: Topology.Group, all: set<nat>, place: Placement)
    returns (m: Machine, moves: nat, ghost mask: set<nat>, ghost ps: seq<Pass>)
    requires Inv(m0) && Places(b, place) && Searchable(m0, g, Total(m0))
    ensures Balances(m0, m) && |m.cpus| == |m0.cpus|
    ensures Passes(g, m0, all, ps, m, mask) && moves == Transfers(ps) && Finished(g, m, mask, ps)
    ensures EachOnce(Loads(m0), Loads(m), all, mask, ps)
    ensures moves == 0 ==> m == m0 && Hopeless(m0, g, all)
  {
    m, moves, ps := m0, 0, [];
    var hmask, done := all, false;
    while !done
      invariant Balances(m0, m) && |m.cpus| == |m0.cpus|
      invariant Passes(g, m0, all, ps, m, hmask) && moves == Transfers(ps)
      invariant done ==> Finished(g, m, hmask, ps)
      decreases !done, |hmask|
    {
      ghost var was, wasMask := m, hmask;
      var moved;
      ghost var p;
      m, hmask, moved, done, p := OnePass(b, m, hmask, g, place, Total(m0));
      BalancesAgain(m0, was, m);
      ps := Noted(g, m0, all, ps, was, wasMask, p, m, hmask, moved, done);
      if moved {
        moves := moves + 1;
      }
    }
    mask := hmask;
    PassesEachOnce(g, m0, all, ps, m, mask);
    if moves == 0 {
      NoTransfer(g, m0, all, ps, m, mask);
    }
  }

  // Placements exist: at the head of the first slot there is always room.
  lemma SomePlacement(b: Bands)
    requires b.Ok()
    ensures Places(b, (m, from, to) => How(Ordinary, Place(0, 0)))
  {
  }
}
