/** The CPU usage window of a thread and the timeshare priority computed from it. */
module Usage {
  import Arith
  import opened Interactivity
  import opened Calendar
  import opened Tdqs

  // ts_ticks, ts_ltick and ts_ftick.  The clock is taken not to wrap.
  datatype Window = Window(ticks: int, ltick: int, ftick: int)

  // SCHED_TICK_TARG and SCHED_TICK_MAX
  function Targ(hz: nat): nat {
    hz * 10
  }

  function Max(hz: nat): nat {
    Targ(hz) + hz
  }

  // The ticks recorded fit in the time covered, which is shorter than SCHED_TICK_MAX.
  predicate Ok(w: Window, hz: nat) {
    && 0 <= w.ticks <= 1024 * (w.ltick - w.ftick)
    && w.ltick - w.ftick < Max(hz)
  }

  // Division of ints in the source, towards zero.
  function Quot(a: int, b: int): int
    requires b > 0
  {
    if a >= 0 then a / b else -((-a) / b)
  }

  // Whether the last tick is SCHED_TICK_TARG or more ago; the difference is compared as a u_int, so a
  // last tick ahead of the clock counts as that.
  predicate Stale(w: Window, t: int, hz: nat) {
    t < w.ltick || t - w.ltick >= Targ(hz)
  }

  // The ticks that fall into the last SCHED_TICK_TARG, at the rate of the whole window.
  function Rescaled(w: Window, t: int, hz: nat): int
    requires w.ltick > w.ftick
  {
    Quot(w.ticks, w.ltick - w.ftick) * (w.ltick - (t - Targ(hz)))
  }

  // sched_pctcpu_update at time t.  Its division is by a positive number whatever the window holds.
  function Updated(w: Window, t: int, run: bool, hz: nat): Window {
    var w' :=
      if Stale(w, t, hz) then Window(0, w.ltick, t - Targ(hz))
      else if t - w.ftick >= Max(hz) then
        Window(Rescaled(w, t, hz), w.ltick, t - Targ(hz))
      else w;
    Window(if run then w'.ticks + (t - w.ltick) * 1024 else w'.ticks, t, w'.ftick)
  }

  // The window stays sound exactly when no time longer than SCHED_TICK_TARG is charged as running.
  lemma WindowKept(w: Window, t: int, run: bool, hz: nat)
    requires hz > 0 && Ok(w, hz) && t >= w.ltick
    ensures Ok(Updated(w, t, run, hz), hz) <==> (run ==> t - w.ltick <= Targ(hz))
  {
    if t - w.ltick < Targ(hz) && t - w.ftick >= Max(hz) {
      RateKept(w.ticks, w.ltick - w.ftick, w.ltick - (t - Targ(hz)));
    }
  }

  lemma WindowBroken()
    ensures Ok(Window(0, 0, 0), 1) && !Ok(Updated(Window(0, 0, 0), 11, true, 1), 1)
  {
  }

  lemma RateKept(ticks: nat, total: nat, kept: nat)
    requires total > 0 && ticks <= 1024 * total
    ensures 0 <= ticks / total * kept <= 1024 * kept
  {
    Arith.DivBelow(ticks, total, 1025);
    Arith.DivAtMost(ticks, total);
    Scale(ticks / total, 1024, kept);
  }

  lemma Scale(a: nat, b: nat, k: nat)
    requires a <= b
    ensures 0 <= a * k <= b * k
  {
    assert b * k == a * k + (b - a) * k;
  }

  // The value of the rescaled ticks: the share of the ticks that the kept part has of the window, short of
  // it by less than one tick rate.
  lemma RescaledValue(w: Window, t: int, hz: nat)
    requires w.ltick > w.ftick && w.ticks >= 0 && w.ltick - (t - Targ(hz)) > 0
    ensures var total, kept, r := w.ltick - w.ftick, w.ltick - (t - Targ(hz)), Rescaled(w, t, hz);
      total * r <= w.ticks * kept < total * r + total * kept
  {
    var total, kept := w.ltick - w.ftick, w.ltick - (t - Targ(hz));
    Arith.DivRange(w.ticks, total);
    Shares(w.ticks / total, total, w.ticks, kept);
  }

  lemma Shares(q: int, total: int, ticks: int, kept: int)
    requires kept > 0 && q * total <= ticks < (q + 1) * total
    ensures total * (q * kept) <= ticks * kept < total * (q * kept) + total * kept
  {
    Arith.MulAtLeast(ticks - q * total, kept);
    MulPositive((q + 1) * total - ticks, kept);
    assert total * (q * kept) == (q * total) * kept;
    assert (q + 1) * total * kept == total * (q * kept) + total * kept;
  }

  lemma MulPositive(a: int, b: int)
    requires a > 0 && b > 0
    ensures a * b > 0
  {
  }

  // The window after an update ends at its time; it is SCHED_TICK_TARG long if it was stale or too long,
  // else it goes on; each tick charged as running counts 1024.
  lemma UpdatedValue(w: Window, t: int, run: bool, hz: nat)
    ensures var w', gap := Updated(w, t, run, hz), t - w.ltick;
      && w'.ltick == t
      && (gap < 0 || gap >= 10 * hz ==> w'.ftick == t - 10 * hz && w'.ticks == if run then 1024 * gap else 0)
      && (0 <= gap < 10 * hz && t - w.ftick >= 11 * hz ==>
            w'.ftick == t - 10 * hz && w.ltick > w.ftick
            && w'.ticks == Rescaled(w, t, hz) + if run then 1024 * gap else 0)
      && (0 <= gap < 10 * hz && t - w.ftick < 11 * hz ==>
            w'.ftick == w.ftick && w'.ticks == w.ticks + if run then 1024 * gap else 0)
  {
  }

  // A run of updates (time, running) of one thread.
  datatype Update = Update(t: int, run: bool)

  predicate Regular(from: int, us: seq<Update>, hz: nat)
    decreases |us|
  {
    us == [] || (us[0].t >= from && (us[0].run ==> us[0].t - from <= Targ(hz)) && Regular(us[0].t, us[1..], hz))
  }

  ghost predicate Reaches(w: Window, us: seq<Update>, hz: nat, w': Window)
    decreases |us|
  {
    if us == [] then w' == w
    else Ok(w, hz) && us[0].t >= w.ltick && Reaches(Updated(w, us[0].t, us[0].run, hz), us[1..], hz, w')
  }

  // Over every run that charges running time at least once in SCHED_TICK_TARG no update divides by zero,
  // and the window it ends with is sound.
  lemma {:induction false} WindowAlways(w: Window, us: seq<Update>, hz: nat) returns (w': Window)
    requires hz > 0 && Ok(w, hz) && Regular(w.ltick, us, hz)
    ensures Reaches(w, us, hz, w') && Ok(w', hz)
    decreases |us|
  {
    if us == [] {
      w' := w;
    } else {
      WindowKept(w, us[0].t, us[0].run, hz);
      w' := WindowAlways(Updated(w, us[0].t, us[0].run, hz), us[1..], hz);
    }
  }

  // The timeshare band, from which sched_ule.c derives the interactive and batch bands.
  const NRESV: nat := 40    // SCHED_PRI_NRESV
  const NHALF: nat := 20    // SCHED_PRI_NHALF

  datatype Timeshare = Timeshare(min: nat, max: nat) {
    // Both derived bands have a priority to give.
    predicate Ok() {
      max < 256 && max - min + 1 >= NRESV + 2
    }

    // PRI_INTERACT_RANGE
    function InteractRange(): int {
      (max - min + 1 - NRESV) / 2
    }

    // PRI_MIN_BATCH and PRI_MAX_BATCH
    function Batch(): (b: Bands)
      requires Ok()
      ensures b.Ok()
    {
      Bands(min + InteractRange(), max)
    }

    // SCHED_PRI_RANGE
    function PriRange(): (r: nat)
      requires Ok()
      ensures r >= 1
    {
      (max - NHALF) - (min + InteractRange() + NHALF) + 1
    }
  }

  // Nice values take 40 priorities of the timeshare band; of the rest the interactive band has half, rounded
  // down, and the batch band all others.
  lemma BandSplit(p: Timeshare)
    requires p.Ok()
    ensures 2 * p.InteractRange() <= p.max - p.min + 1 - 40 < 2 * p.InteractRange() + 2
    ensures p.Batch().minBatch == p.min + p.InteractRange() && p.Batch().maxBatch == p.max
    ensures p.PriRange() == p.max - p.Batch().minBatch + 1 - 40
  {
  }

  // SCHED_PRI_TICKS
  function PriTicks(w: Window, hz: nat, range: nat): int
    requires hz > 0 && range > 0
  {
    var total := if w.ltick - w.ftick > hz then w.ltick - w.ftick else hz;
    var steps := (total + range - 1) / range;
    Arith.DivMonotone(range, total + range - 1, range);
    w.ticks / 1024 / steps
  }

  // The usage priority is in range: at most one per step, and as many steps fit in the window.
  lemma PriTicksInRange(w: Window, hz: nat, range: nat)
    requires hz > 0 && range > 0 && Ok(w, hz)
    ensures 0 <= PriTicks(w, hz, range) <= range
  {
    var total := if w.ltick - w.ftick > hz then w.ltick - w.ftick else hz;
    var steps := (total + range - 1) / range;
    Arith.DivMonotone(range, total + range - 1, range);
    Arith.DivRange(total + range - 1, range);
    assert total <= range * steps;
    assert 0 <= w.ticks / 1024 <= total;
    StepsBound(w.ticks / 1024, steps, range);
  }

  lemma StepsBound(x: nat, steps: nat, range: nat)
    requires steps > 0 && x <= range * steps
    ensures 0 <= x / steps <= range
  {
    assert x < (range + 1) * steps;
    Arith.DivBelow(x, steps, range + 1);
    Arith.DivAtMost(x, steps);
  }

  // sched_priority: the priority of a thread with this history, window and nice value.  The usage term
  // goes through the unsigned min of the kernel.
  function Priority(p: Timeshare, h: History, w: Window, nice: int, interact: int, hz: nat): int
    requires p.Ok() && hz > 0
  {
    var score := Score(h, interact) + nice;
    var score0 := if score > 0 then score else 0;
    if score0 < interact then p.min + p.InteractRange() / interact * score0
    else
      var ticks := PriTicks(w, hz, p.PriRange()) % WORD;
      p.Batch().minBatch + NHALF
      + (if w.ticks == 0 then 0 else if ticks < p.PriRange() - 1 then ticks else p.PriRange() - 1)
      + nice
  }

  // The assertions of sched_priority hold: a thread below the threshold gets an interactive priority and
  // goes to the realtime queue, any other gets a batch priority and goes to the calendar.
  lemma PriorityInBand(p: Timeshare, h: History, w: Window, nice: int, interact: int, hz: nat)
    requires p.Ok() && hz > 0 && -20 <= nice <= 20
    ensures var pri := Priority(p, h, w, nice, interact, hz);
      && p.min <= pri <= p.max
      && (WhichQueue(p.Batch(), pri) == Realtime <==> Score(h, interact) + nice < interact && interact > 0)
      && (p.Batch().Batch(pri) <==> !(Score(h, interact) + nice < interact && interact > 0))
  {
    var score := Score(h, interact) + nice;
    var score0 := if score > 0 then score else 0;
    if score0 < interact {
      InteractBelow(p.InteractRange(), interact, score0);
    }
  }

  lemma InteractBelow(range: nat, interact: nat, score: nat)
    requires range >= 1 && score < interact
    ensures 0 <= range / interact * score < range
  {
    Arith.DivRange(range, interact);
    Arith.DivAtMost(range, interact);
    var q := range / interact;
    Scale(score, interact - 1, q);
    assert q * (interact - 1) == q * interact - q;
  }

  // The value of the usage term: the ticks per step, where range steps just cover the window.
  lemma PriTicksValue(w: Window, hz: nat, range: nat)
    requires hz > 0 && range > 0 && w.ticks >= 0
    ensures var total := if w.ltick - w.ftick > hz then w.ltick - w.ftick else hz;
      exists steps: nat ::
        && range * (steps - 1) < total <= range * steps
        && Quotient(w.ticks / 1024, steps, PriTicks(w, hz, range))
  {
    var total := if w.ltick - w.ftick > hz then w.ltick - w.ftick else hz;
    var steps := (total + range - 1) / range;
    Arith.DivMonotone(range, total + range - 1, range);
    Arith.DivRange(total + range - 1, range);
    Arith.DivRange(w.ticks / 1024, steps);
    assert range * (steps - 1) < total <= range * steps;
    assert Quotient(w.ticks / 1024, steps, PriTicks(w, hz, range));
  }

  // More ticks in the same window never give a smaller usage term.
  lemma UsageMonotone(w: Window, w': Window, hz: nat, range: nat)
    requires hz > 0 && range > 0 && w.ltick == w'.ltick && w.ftick == w'.ftick && 0 <= w.ticks <= w'.ticks
    ensures 0 <= PriTicks(w, hz, range) <= PriTicks(w', hz, range)
  {
    var total := if w.ltick - w.ftick > hz then w.ltick - w.ftick else hz;
    var steps := (total + range - 1) / range;
    Arith.DivMonotone(range, total + range - 1, range);
    Arith.DivMonotone(w.ticks / 1024, w'.ticks / 1024, steps);
    Arith.DivAtMost(w.ticks / 1024, steps);
  }

  // What sched_priority sees of a thread.
  datatype Claim = Claim(h: History, w: Window, nice: int)

  function PriorityOf(p: Timeshare, c: Claim, interact: int, hz: nat): int
    requires p.Ok() && hz > 0
  {
    Priority(p, c.h, c.w, c.nice, interact, hz)
  }

  // A thread with no better score, usage and nice value never gets the better priority.
  lemma PriorityMonotone(p: Timeshare, c: Claim, c': Claim, interact: int, hz: nat)
    requires p.Ok() && hz > 0 && Ok(c.w, hz) && Ok(c'.w, hz) && -20 <= c.nice <= c'.nice <= 20
    requires Score(c.h, interact) <= Score(c'.h, interact)
    requires PriTicks(c.w, hz, p.PriRange()) <= PriTicks(c'.w, hz, p.PriRange())
    ensures PriorityOf(p, c, interact, hz) <= PriorityOf(p, c', interact, hz)
  {
    if interact > 0 && Score(c'.h, interact) + c'.nice < interact {
      InteractiveMonotone(p, c, c', interact, hz);
    } else if interact > 0 && Score(c.h, interact) + c.nice < interact {
      PriorityInBand(p, c.h, c.w, c.nice, interact, hz);
      PriorityInBand(p, c'.h, c'.w, c'.nice, interact, hz);
    } else {
      BatchValue(p, c, interact, hz);
      BatchValue(p, c', interact, hz);
    }
  }

  lemma InteractiveMonotone(p: Timeshare, c: Claim, c': Claim, interact: int, hz: nat)
    requires p.Ok() && hz > 0 && 0 < interact
    requires Score(c.h, interact) + c.nice <= Score(c'.h, interact) + c'.nice < interact
    ensures PriorityOf(p, c, interact, hz) <= PriorityOf(p, c', interact, hz)
  {
    var a, b := Score(c.h, interact) + c.nice, Score(c'.h, interact) + c'.nice;
    Arith.DivAtMost(p.InteractRange(), interact);
    Scale(if a > 0 then a else 0, if b > 0 then b else 0, p.InteractRange() / interact);
  }

  // In the batch band the usage term, capped, and the nice value add up.
  lemma BatchValue(p: Timeshare, c: Claim, interact: int, hz: nat)
    requires p.Ok() && hz > 0 && Ok(c.w, hz)
    requires interact <= 0 || Score(c.h, interact) + c.nice >= interact
    ensures var u, range := PriTicks(c.w, hz, p.PriRange()), p.PriRange();
      PriorityOf(p, c, interact, hz) == p.Batch().minBatch + 20 + (if u < range then u else range - 1) + c.nice
  {
    PriTicksInRange(c.w, hz, p.PriRange());
    if c.w.ticks == 0 {
      NoTicks(c.w, hz, p.PriRange());
    }
  }

  lemma NoTicks(w: Window, hz: nat, range: nat)
    requires hz > 0 && range > 0 && w.ticks == 0
    ensures PriTicks(w, hz, range) == 0
  {
    var total := if w.ltick - w.ftick > hz then w.ltick - w.ftick else hz;
    var steps := (total + range - 1) / range;
    Arith.DivMonotone(range, total + range - 1, range);
    Arith.DivAtMost(0, steps);
  }

  // In the interactive band the score alone counts, in equal steps from the best priority up.
  lemma InteractiveValue(p: Timeshare, c: Claim, interact: int, hz: nat)
    requires p.Ok() && hz > 0 && 0 < interact && Score(c.h, interact) + c.nice < interact
    ensures exists step: nat ::
      && Quotient(p.InteractRange(), interact, step)
      && PriorityOf(p, c, interact, hz) ==
         p.min + step * if Score(c.h, interact) + c.nice > 0 then Score(c.h, interact) + c.nice else 0
  {
    Arith.DivRange(p.InteractRange(), interact);
    Arith.DivAtMost(p.InteractRange(), interact);
    assert Quotient(p.InteractRange(), interact, p.InteractRange() / interact);
  }
}
