/** The td_sched record of a thread: the history and window fields that the scheduler updates in place. */
module TdSchedObjects {
  import opened Queues
  import Arith
  import I = Interactivity
  import U = Usage

  class TdSched {
    var runtime: nat    // ts_runtime
    var slptime: nat    // ts_slptime
    var ticks: int      // ts_ticks
    var ltick: int      // ts_ltick
    var ftick: int      // ts_ftick

    function History(): I.History
      reads this
    {
      I.History(runtime, slptime)
    }

    function Window(): U.Window
      reads this
    {
      U.Window(ticks, ltick, ftick)
    }

    // sched_interact_update
    method InteractUpdate(hz: nat)
      requires History().Ok()
      modifies this`runtime, this`slptime
      ensures History() == I.Updated(old(History()), hz)
      ensures hz > 0 && old(History()).Sum() < I.WORD ==> I.Bounded(History(), hz)
      ensures hz > 0 && I.SlpRunMax(hz) <= old(History()).Sum() < I.WORD ==>
        5 * History().Sum() >= 3 * I.SlpRunMax(hz) - 5
    {
      if hz > 0 && History().Sum() < I.WORD {
        I.UpdateBounds(History(), hz);
      }
      var max := I.SlpRunMax(hz);
      var sum := I.UInt(runtime + slptime);
      if sum < max {
        return;
      }
      if sum > max * 2 {
        if runtime > slptime {
          runtime := max;
          slptime := 1;
        } else {
          slptime := max;
          runtime := 1;
        }
        return;
      }
      if sum > max / 5 * 6 {
        runtime := runtime / 2;
        slptime := slptime / 2;
        return;
      }
      runtime := runtime / 5 * 4;
      slptime := slptime / 5 * 4;
    }

    // sched_interact_fork; false where it divides by zero.
    method InteractFork(hz: nat) returns (ok: bool)
      requires History().Ok()
      modifies this`runtime, this`slptime
      ensures ok <==> !(hz < 2 && I.IntSum(old(History())) > 0)
      ensures ok ==> I.Forked(old(History()), hz) == Some(History())
      ensures !ok ==> History() == old(History())
      ensures hz >= 2 ==>
        (History().Sum() < 2 * I.SlpRunFork(hz) <==>
          old(History()).Sum() < I.WORD / 2 || old(History()).Sum() < 2 * I.SlpRunFork(hz))
    {
      I.ForkDividesByZero(History(), hz);
      if hz >= 2 {
        I.ForkBounds(History(), hz);
      }
      var sum := I.UInt(runtime + slptime);
      if sum >= I.WORD / 2 {
        sum := sum - I.WORD;
      }
      ok := ScaleBack(sum, I.SlpRunFork(hz));
    }

    method ScaleBack(sum: int, limit: nat) returns (ok: bool)
      modifies this`runtime, this`slptime
      ensures ok <==> I.Scaled(old(History()), sum, limit).Some?
      ensures ok ==> I.Scaled(old(History()), sum, limit) == Some(History())
      ensures !ok ==> History() == old(History())
    {
      if sum <= limit {
        return true;
      }
      if limit == 0 {
        return false;
      }
      var ratio := sum / limit;
      Arith.DivMonotone(limit, sum, limit);
      Arith.DivAtMost(runtime, ratio);
      Arith.DivAtMost(slptime, ratio);
      runtime := runtime / ratio;
      slptime := slptime / ratio;
      return true;
    }

    // sched_pctcpu_update
    method PctcpuUpdate(t: int, run: bool, hz: nat)
      modifies this`ticks, this`ltick, this`ftick
      ensures Window() == U.Updated(old(Window()), t, run, hz)
      ensures hz > 0 && U.Ok(old(Window()), hz) && t >= old(ltick) ==>
        (U.Ok(Window(), hz) <==> (run ==> t - old(ltick) <= U.Targ(hz)))
    {
      if hz > 0 && U.Ok(Window(), hz) && t >= ltick {
        U.WindowKept(Window(), t, run, hz);
      }
      if t < ltick || t - ltick >= U.Targ(hz) {
        ticks := 0;
        ftick := t - U.Targ(hz);
      } else if t - ftick >= U.Max(hz) {
        ticks := U.Rescaled(Window(), t, hz);
        ftick := t - U.Targ(hz);
      }
      if run {
        ticks := ticks + (t - ltick) * 1024;
      }
      ltick := t;
    }
  }
}
