/** The interactivity history of a thread: its score, its decay, and the priority it gives. */
module Interactivity {
  import opened Queues
  import Arith

  const HALF: int := 50     // SCHED_INTERACT_HALF
  const WORD: int := 0x1_0000_0000

  // ts_runtime and ts_slptime, which are u_ints.
  datatype History = History(run: nat, slp: nat) {
    predicate Ok() {
      run < WORD && slp < WORD
    }

    function Sum(): nat {
      run + slp
    }
  }

  // What a u_int keeps of a sum.
  function UInt(x: nat): nat {
    if x < WORD then x else x % WORD
  }

  // SCHED_SLP_RUN_MAX and SCHED_SLP_RUN_FORK
  function SlpRunMax(hz: nat): nat {
    hz * 5 * 1024
  }

  function SlpRunFork(hz: nat): nat {
    hz / 2 * 1024
  }

  function Div(n: nat): nat {
    if n / HALF > 1 then n / HALF else 1
  }

  // sched_interact_score, under the threshold sched_interact
  function Score(h: History, interact: int): int {
    if interact <= HALF && h.run >= h.slp then HALF
    else if h.run > h.slp then HALF + (HALF - h.slp / Div(h.run))
    else if h.slp > h.run then h.run / Div(h.slp)
    else if h.run != 0 then HALF
    else 0
  }

  // The quotient of the smaller history by a fiftieth of the larger.
  lemma QuotientBounds(small: nat, large: nat)
    requires small < large
    ensures 0 <= small / Div(large) <= 98
    ensures small / Div(large) <= 50 <==> small < 51 * Div(large)
    ensures large >= 2450 ==> small < 51 * Div(large)
  {
    QuotientBelow(small, Div(large), 99);
    QuotientBelow(small, Div(large), 51);
  }

  lemma QuotientBelow(x: nat, d: nat, k: nat)
    requires d > 0
    ensures 0 <= x / d && (x / d < k <==> x < k * d)
  {
    Arith.DivAtMost(x, d);
    Arith.DivBelow(x, d, k);
  }

  // The score is a percentage.  It is on the side of 50 the longer history calls for exactly when the
  // shorter one is below 51 fiftieths of the longer, rounded down; any longer history of 2450 will do.

  lemma ScoreOfRunner(h: History, interact: int)
    requires h.run > h.slp
    ensures 0 <= Score(h, interact) <= 100
    ensures Score(h, interact) >= HALF <==> interact <= HALF || h.slp < 51 * Div(h.run)
    ensures h.run >= 2450 ==> Score(h, interact) >= HALF
  {
    QuotientBounds(h.slp, h.run);
  }

  lemma ScoreOfSleeper(h: History, interact: int)
    requires h.slp > h.run
    ensures 0 <= Score(h, interact) <= 100
    ensures Score(h, interact) <= HALF <==> h.run < 51 * Div(h.slp)
    ensures h.slp >= 2450 ==> Score(h, interact) <= HALF
  {
    QuotientBounds(h.run, h.slp);
  }

  lemma ScoreRange(h: History, interact: int)
    ensures 0 <= Score(h, interact) <= 100
  {
    if h.run > h.slp {
      ScoreOfRunner(h, interact);
    } else if h.slp > h.run {
      ScoreOfSleeper(h, interact);
    }
  }

  // d is a fiftieth of n, rounded down, and at least 1.
  ghost predicate Fiftieth(n: nat, d: nat) {
    d >= 1 && (50 * d <= n < 50 * (d + 1) || (d == 1 && n < 50))
  }

  // v is the quotient of n by d.
  ghost predicate Quotient(n: nat, d: nat, v: int) {
    v * d <= n < (v + 1) * d
  }

  // The value of the score: the shorter history in fiftieths of the longer, taken from 100 for a thread
  // that runs more than it sleeps.
  lemma ScoreValue(h: History, interact: int)
    ensures interact <= 50 && h.run >= h.slp ==> Score(h, interact) == 50
    ensures interact > 50 && h.run > h.slp ==>
      exists d :: Fiftieth(h.run, d) && Quotient(h.slp, d, 100 - Score(h, interact))
    ensures h.slp > h.run ==> exists d :: Fiftieth(h.slp, d) && Quotient(h.run, d, Score(h, interact))
    ensures interact > 50 && h.run == h.slp ==> Score(h, interact) == if h.run == 0 then 0 else 50
  {
    if h.run > h.slp {
      DivFiftieth(h.run);
      Arith.DivRange(h.slp, Div(h.run));
      assert Quotient(h.slp, Div(h.run), h.slp / Div(h.run));
    } else if h.slp > h.run {
      DivFiftieth(h.slp);
      Arith.DivRange(h.run, Div(h.slp));
      assert Quotient(h.run, Div(h.slp), h.run / Div(h.slp));
    }
  }

  lemma DivFiftieth(n: nat)
    ensures Fiftieth(n, Div(n))
  {
  }

  // Below that the rounding can put a thread on the wrong side, either way.
  lemma ScoreWrongSide()
    ensures var h := History(2449, 2448); h.run > h.slp && Score(h, 60) < HALF
    ensures var h := History(2448, 2449); h.slp > h.run && Score(h, 60) > HALF
  {
    assert Div(2449) == 48 && 2448 / 48 == 51;
  }

  // The decay of a history whose sum is read as sum, under the limit max.
  function Decayed(h: History, sum: nat, max: nat): History {
    if sum < max then h
    else if sum > max * 2 then
      if h.run > h.slp then History(max, 1) else History(1, max)
    else if sum > max / 5 * 6 then History(h.run / 2, h.slp / 2)
    else History(h.run / 5 * 4, h.slp / 5 * 4)
  }

  lemma DecayedBounds(h: History, fifth: nat)
    requires fifth >= 6
    ensures var max := 5 * fifth; var h' := Decayed(h, h.Sum(), max);
      && h'.Sum() <= max + 1
      && (h.Sum() < max ==> h' == h)
      && (h.Sum() >= max ==> 5 * h'.Sum() >= 3 * max - 5)
      && (h.run > h.slp ==> h'.run >= h'.slp)
      && (h.run <= h.slp ==> h'.run <= h'.slp)
  {
  }

  // sched_interact_update; the sum is a u_int.
  function Updated(h: History, hz: nat): History {
    Decayed(h, UInt(h.Sum()), SlpRunMax(hz))
  }

  // The update bounds the history, does not cut it by more than two fifths, and does not reverse which
  // of the two is longer.
  lemma UpdateBounds(h: History, hz: nat)
    requires hz > 0 && h.Sum() < WORD
    ensures var h' := Updated(h, hz); var max := SlpRunMax(hz);
      && h'.Sum() <= max + 1
      && (h.Sum() < max ==> h' == h)
      && (h.Sum() >= max ==> 5 * h'.Sum() >= 3 * max - 5)
      && (h.run > h.slp ==> h'.run >= h'.slp)
      && (h.run <= h.slp ==> h'.run <= h'.slp)
  {
    DecayedBounds(h, 1024 * hz);
  }

  // What each band of sums keeps of either history: all, 4/5, a half, each rounded down, or the limit for the
  // longer and 1 for the other.
  lemma UpdateValue(h: History, hz: nat)
    requires hz > 0 && h.Sum() < WORD
    ensures var h', max := Updated(h, hz), hz * 5 * 1024;
      && (h.Sum() < max ==> h' == h)
      && (max <= h.Sum() && 5 * h.Sum() <= 6 * max ==> FourFifths(h.run, h'.run) && FourFifths(h.slp, h'.slp))
      && (6 * max < 5 * h.Sum() && h.Sum() <= 2 * max ==> Half(h.run, h'.run) && Half(h.slp, h'.slp))
      && (h.Sum() > 2 * max ==> h' == if h.run > h.slp then History(max, 1) else History(1, max))
  {
    FifthOf(1024 * hz);
    Fifths(h.run);
    Fifths(h.slp);
  }

  ghost predicate FourFifths(x: nat, y: nat) {
    5 * y <= 4 * x < 5 * y + 20
  }

  ghost predicate Half(x: nat, y: nat) {
    2 * y <= x <= 2 * y + 1
  }

  lemma Fifths(x: nat)
    ensures FourFifths(x, x / 5 * 4) && Half(x, x / 2)
  {
  }

  lemma FifthOf(fifth: nat)
    ensures 5 * fifth / 5 == fifth
  {
  }

  // The comment on the halving puts its result between 4/5 of the limit and the limit.  The upper end
  // holds; the lower one exactly when what the two halvings keep is 8/5 of the limit.
  lemma HalvedRange(h: History, hz: nat)
    requires h.Sum() < WORD && SlpRunMax(hz) / 5 * 6 < h.Sum() <= 2 * SlpRunMax(hz)
    ensures var h' := Updated(h, hz); var max := SlpRunMax(hz);
      && h'.Sum() <= max
      && (5 * h'.Sum() >= 4 * max <==> h.Sum() - h.run % 2 - h.slp % 2 >= max / 5 * 8)
  {
    HalvedBy(h, SlpRunMax(hz), 1024 * hz);
  }

  lemma HalvedBy(h: History, max: nat, fifth: nat)
    requires max == 5 * fifth && max / 5 * 6 < h.Sum() <= 2 * max
    ensures var h' := Decayed(h, h.Sum(), max);
      && h'.Sum() <= max
      && (5 * h'.Sum() >= 4 * max <==> h.Sum() - h.run % 2 - h.slp % 2 >= max / 5 * 8)
  {
    assert max / 5 == fifth;
    var h' := History(h.run / 2, h.slp / 2);
    assert 2 * h'.Sum() == h.Sum() - h.run % 2 - h.slp % 2;
  }

  lemma HalvedTooFar()
    ensures var h, max := History(3073, 3072), SlpRunMax(1);
      && max / 5 * 6 < h.Sum() <= 2 * max
      && Updated(h, 1) == History(1536, 1536)
      && 5 * Updated(h, 1).Sum() < 4 * max
  {
  }

  // A charge of run or sleep time, to u_ints, followed by the update.
  function Charged(h: History, hz: nat, c: History): History {
    Updated(History(UInt(h.run + c.run), UInt(h.slp + c.slp)), hz)
  }

  function ChargedAll(h: History, hz: nat, charges: seq<History>): History
    decreases |charges|
  {
    if charges == [] then h else ChargedAll(Charged(h, hz, charges[0]), hz, charges[1..])
  }

  // No sum of the run leaves the word.
  predicate NeverWraps(h: History, hz: nat, charges: seq<History>)
    decreases |charges|
  {
    charges != [] ==>
      h.Sum() + charges[0].Sum() < WORD && NeverWraps(Charged(h, hz, charges[0]), hz, charges[1..])
  }

  predicate Bounded(h: History, hz: nat) {
    h.Sum() <= SlpRunMax(hz) + 1
  }

  lemma ChargeBounded(h: History, hz: nat, c: History)
    requires hz > 0 && h.Sum() + c.Sum() < WORD
    ensures Bounded(Charged(h, hz, c), hz)
  {
    UpdateBounds(History(h.run + c.run, h.slp + c.slp), hz);
  }

  // The charges of a run leave room in a word beside a bounded history.
  ghost predicate Roomy(hz: nat, charges: seq<History>) {
    forall i :: 0 <= i < |charges| ==> SlpRunMax(hz) + 1 + charges[i].Sum() < WORD
  }

  lemma RoomyStep(h: History, hz: nat, charges: seq<History>)
    requires Bounded(h, hz) && Roomy(hz, charges) && charges != []
    ensures h.Sum() + charges[0].Sum() < WORD && Roomy(hz, charges[1..])
  {
  }

  // So in a run of any length a bounded history stays bounded and no sum wraps.
  lemma {:induction false} HistoryBounded(h: History, hz: nat, charges: seq<History>)
    requires hz > 0 && Bounded(h, hz) && Roomy(hz, charges)
    ensures NeverWraps(h, hz, charges) && Bounded(ChargedAll(h, hz, charges), hz)
    decreases |charges|
  {
    if charges != [] {
      RoomyStep(h, hz, charges);
      ChargeBounded(h, hz, charges[0]);
      HistoryBounded(Charged(h, hz, charges[0]), hz, charges[1..]);
    }
  }

  // A history over the limit is divided by the number of times it holds the limit; None where that is a
  // division by zero.
  function Scaled(h: History, sum: int, limit: nat): Option<History> {
    if sum <= limit then Some(h)
    else if limit == 0 then None
    else
      var ratio := sum / limit;
      Arith.DivMonotone(limit, sum, limit);
      Some(History(h.run / ratio, h.slp / ratio))
  }

  // The u_int sum of the two, held in an int.
  function IntSum(h: History): int {
    var sum := UInt(h.Sum());
    if sum < WORD / 2 then sum else sum - WORD
  }

  // sched_interact_fork
  function Forked(h: History, hz: nat): Option<History> {
    Scaled(h, IntSum(h), SlpRunFork(hz))
  }

  // The division is by zero exactly at clock rates below 2 Hz, for any history the int holds as positive.
  lemma ForkDividesByZero(h: History, hz: nat)
    ensures Forked(h, hz).None? <==> hz < 2 && IntSum(h) > 0
    ensures IntSum(h) > 0 <==> 0 < h.Sum() % 0x1_0000_0000 < 0x8000_0000
  {
    IntSumSign(h);
    Arith.DivBelow(hz, 2, 1);
    var limit := SlpRunFork(hz);
    assert limit == 0 <==> hz < 2;
  }

  lemma IntSumSign(h: History)
    ensures IntSum(h) > 0 <==> 0 < h.Sum() % 0x1_0000_0000 < 0x8000_0000
  {
  }

  // Both sums are divided by the number of times the limit goes into the total.
  ghost predicate ScaledBy(h: History, h': History, sum: nat, limit: nat) {
    exists ratio: nat ::
      && Quotient(sum, limit, ratio)
      && Quotient(h.run, ratio, h'.run) && Quotient(h.slp, ratio, h'.slp)
  }

  lemma ScaledValue(h: History, sum: nat, limit: nat)
    requires 0 < limit < sum
    ensures Scaled(h, sum, limit).Some? && ScaledBy(h, Scaled(h, sum, limit).value, sum, limit)
  {
    var ratio := sum / limit;
    Arith.DivMonotone(limit, sum, limit);
    Arith.DivRange(sum, limit);
    Arith.DivRange(h.run, ratio);
    Arith.DivRange(h.slp, ratio);
    assert Quotient(sum, limit, ratio) && Quotient(h.run, ratio, h.run / ratio);
  }

  // The scaling of a history: a sum within the limit, or one the int holds as negative, changes nothing.
  lemma ForkValue(h: History, hz: nat)
    requires hz >= 2
    ensures Forked(h, hz).Some?
    ensures var h', sum, limit := Forked(h, hz).value, h.Sum() % WORD, hz / 2 * 1024;
      if limit < sum < WORD / 2 then ScaledBy(h, h', sum, limit) else h' == h
  {
    var sum, limit := IntSum(h), SlpRunFork(hz);
    assert limit > 0;
    if sum > limit {
      ScaledValue(h, sum, limit);
    }
  }

  lemma ForkFails()
    ensures Forked(History(1, 0), 1) == None
  {
  }

  // A child keeps the order of the two.  It starts with less than twice the limit exactly when the sum is
  // positive as an int or was that small before.
  lemma ForkBounds(h: History, hz: nat)
    requires h.Ok() && hz >= 2
    ensures Forked(h, hz).Some?
    ensures var h' := Forked(h, hz).value;
      && h'.run <= h.run && h'.slp <= h.slp
      && (h.run >= h.slp ==> h'.run >= h'.slp)
      && (h.run <= h.slp ==> h'.run <= h'.slp)
      && (h'.Sum() < 2 * SlpRunFork(hz) <==> h.Sum() < WORD / 2 || h.Sum() < 2 * SlpRunFork(hz))
  {
    var limit := SlpRunFork(hz);
    ScaledOrder(h, IntSum(h), limit);
    if IntSum(h) > limit {
      ScaledSum(h, IntSum(h), limit);
    }
  }

  lemma ScaledOrder(h: History, sum: int, limit: nat)
    requires limit > 0
    ensures Scaled(h, sum, limit).Some?
    ensures var h' := Scaled(h, sum, limit).value;
      && h'.run <= h.run && h'.slp <= h.slp
      && (h.run >= h.slp ==> h'.run >= h'.slp)
      && (h.run <= h.slp ==> h'.run <= h'.slp)
  {
    if sum > limit {
      Arith.DivMonotone(limit, sum, limit);
      SharesKeepOrder(h.run, h.slp, sum / limit);
    }
  }

  // A sum that has wrapped is too small a divisor by a factor of three.
  lemma ScaledSum(h: History, sum: int, limit: nat)
    requires sum > limit >= 2 && (h.Sum() == sum || h.Sum() >= 3 * sum)
    ensures Scaled(h, sum, limit).Some?
    ensures Scaled(h, sum, limit).value.Sum() < 2 * limit <==> h.Sum() == sum
  {
    var ratio := sum / limit;
    Arith.DivMonotone(limit, sum, limit);
    if h.Sum() == sum {
      SharesBelow(h.run, h.slp, ratio, limit);
    } else {
      SharesAbove(h.run, h.slp, ratio, sum, limit);
    }
  }

  lemma SharesAbove(a: nat, b: nat, ratio: nat, sum: nat, f: nat)
    requires f >= 2 && ratio > 0 && ratio == sum / f && a + b >= 3 * sum
    ensures a / ratio + b / ratio >= 2 * f
  {
    Arith.DivRange(a, ratio);
    Arith.DivRange(b, ratio);
    Arith.DivRange(sum, f);
    Over(a / ratio, b / ratio, ratio, f);
  }

  lemma Over(p: int, q: int, ratio: int, f: int)
    requires ratio > 0 && f >= 2 && (p + 1) * ratio + (q + 1) * ratio > 3 * (ratio * f)
    ensures p + q >= 2 * f
  {
    assert (3 * f) * ratio == 3 * (ratio * f);
    assert (p + q + 2) * ratio == (p + 1) * ratio + (q + 1) * ratio;
    Arith.LtMul(3 * f, p + q + 2, ratio);
  }

  lemma SharesKeepOrder(a: nat, b: nat, ratio: nat)
    requires ratio > 0
    ensures 0 <= a / ratio <= a && 0 <= b / ratio <= b
    ensures (a >= b ==> a / ratio >= b / ratio) && (a <= b ==> a / ratio <= b / ratio)
  {
    Arith.DivAtMost(a, ratio);
    Arith.DivAtMost(b, ratio);
    if a >= b {
      Arith.DivMonotone(b, a, ratio);
    }
    if a <= b {
      Arith.DivMonotone(a, b, ratio);
    }
  }

  lemma SharesBelow(a: nat, b: nat, ratio: nat, f: nat)
    requires f > 0 && ratio > 0 && ratio == (a + b) / f
    ensures a / ratio + b / ratio < 2 * f
  {
    Arith.DivRange(a, ratio);
    Arith.DivRange(b, ratio);
    Arith.DivRange(a + b, f);
    Arith.MulAtLeast(ratio - 1, f);
    ShareSum(a / ratio, b / ratio, ratio, f);
  }

  lemma ShareSum(p: int, q: int, ratio: int, f: int)
    requires p * ratio + q * ratio < (ratio + 1) * f && (ratio - 1) * f >= 0 && ratio > 0
    ensures p + q < 2 * f
  {
    assert (p + q) * ratio < 2 * f * ratio;
    Arith.LtMul(p + q, 2 * f, ratio);
  }
}
