/** Whole runs of the calendar: no queued thread is overtaken, and every one is reached in bounded time. */
module CalendarRuns {
  import opened Queues
  import opened Calendar

  datatype Event = Add(td: nat, pri: nat, kind: Kind) | Rem(td: nat) | Tick

  type Tds = Cal<nat>

  ghost predicate Enabled(b: Bands, c: Tds, e: Event) {
    match e
    case Add(td, pri, _) => td !in c.at && b.Batch(pri)
    case Rem(td) => td in c.at
    case Tick => true
  }

  ghost function Step(b: Bands, c: Tds, e: Event): Tds
    requires b.Ok() && Ok(c) && Enabled(b, c, e)
  {
    match e
    case Add(td, pri, kind) => Calendar.Add(b, c, td, pri, kind)
    case Rem(td) => Calendar.Rem(c, td)
    case Tick => Calendar.Tick(c)
  }

  ghost predicate Reaches(b: Bands, c: Tds, evs: seq<Event>, c': Tds)
    requires b.Ok()
    decreases |evs|
  {
    Ok(c) &&
    if evs == [] then c' == c
    else Enabled(b, c, evs[0]) && Reaches(b, Step(b, c, evs[0]), evs[1..], c')
  }

  lemma StepOk(b: Bands, c: Tds, e: Event)
    requires b.Ok() && Ok(c) && Enabled(b, c, e)
    ensures var c' := Step(b, c, e);
      && Ok(c')
      && (forall t :: t in c.at && t in c'.at ==> Lag(c', t) <= Lag(c, t) && c'.at[t] == c.at[t])
      && (forall t :: t in c.at && e != Rem(t) ==> t in c'.at)
  {
    match e
    case Add(td, pri, kind) => AddOk(b, c, td, pri, kind);
    case Rem(td) => RemOk(c, td);
    case Tick => TickOk(c);
  }

  // Over any run, the indices stay together, and a thread that stays queued only gets closer.
  lemma {:induction false} NeverOvertaken(b: Bands, c: Tds, evs: seq<Event>, c': Tds, t: nat)
    requires b.Ok() && Reaches(b, c, evs, c') && t in c.at && Rem(t) !in evs
    ensures Ok(c') && t in c'.at && c'.at[t] == c.at[t] && Lag(c', t) <= Lag(c, t)
    decreases |evs|
  {
    if evs != [] {
      StepOk(b, c, evs[0]);
      NeverOvertaken(b, Step(b, c, evs[0]), evs[1..], c', t);
    }
  }

  lemma {:induction false} StaysOk(b: Bands, c: Tds, evs: seq<Event>, c': Tds)
    requires b.Ok() && Reaches(b, c, evs, c')
    ensures Ok(c')
    decreases |evs|
  {
    if evs != [] {
      StepOk(b, c, evs[0]);
      StaysOk(b, Step(b, c, evs[0]), evs[1..], c');
    }
  }

  // Between ticks the insert index stands still, and the removal index moves at most up to it.
  lemma {:induction false} BetweenTicks(b: Bands, c: Tds, evs: seq<Event>, c': Tds)
    requires b.Ok() && Reaches(b, c, evs, c') && Tick !in evs
    ensures Ok(c') && c'.idx == c.idx && (c'.ridx == c.ridx || c'.ridx == c.idx)
    decreases |evs|
  {
    if evs != [] {
      BetweenStep(b, c, evs[0]);
      BetweenTicks(b, Step(b, c, evs[0]), evs[1..], c');
    }
  }

  lemma BetweenStep(b: Bands, c: Tds, e: Event)
    requires b.Ok() && Ok(c) && Enabled(b, c, e) && e != Tick
    ensures var m := Step(b, c, e); Ok(m) && m.idx == c.idx && (m.ridx == c.ridx || m.ridx == c.idx)
  {
    StepOk(b, c, e);
  }

  // A round: a tick, then additions and removals of any kind, with a moment m at which the slot that was
  // in front before the tick has drained.
  datatype Round = Round(before: seq<Event>, m: Tds, after: seq<Event>)

  ghost predicate IsRound(b: Bands, c: Tds, r: Round, c': Tds)
    requires b.Ok()
  {
    && Ok(c)
    && Tick !in r.before && Tick !in r.after
    && Reaches(b, Calendar.Tick(c), r.before, r.m)
    && |r.m.slots| == RQ_NQS && r.m.slots[c.ridx] == []
    && Reaches(b, r.m, r.after, c')
  }

  // Every round moves the removal index by exactly one slot.
  lemma RoundAdvances(b: Bands, c: Tds, r: Round, c': Tds)
    requires b.Ok() && IsRound(b, c, r, c')
    ensures Ok(c') && c'.ridx == (c.ridx + 1) % RQ_NQS
  {
    TickOk(c);
    BetweenTicks(b, Calendar.Tick(c), r.before, r.m);
    BetweenTicks(b, r.m, r.after, c');
  }

  lemma NotInFront(b: Bands, c: Tds, r: Round, c': Tds, t: nat)
    requires b.Ok() && IsRound(b, c, r, c') && t in c.at && Rem(t) !in r.before
    ensures c.at[t] != c.ridx
  {
    TickOk(c);
    NeverOvertaken(b, Calendar.Tick(c), r.before, r.m, t);
    assert t in r.m.slots[c.at[t]] && t in c.slots[c.at[t]];
  }

  lemma StaysQueued(b: Bands, c: Tds, r: Round, c': Tds, t: nat)
    requires b.Ok() && IsRound(b, c, r, c') && t in c.at && Rem(t) !in r.before && Rem(t) !in r.after
    ensures Ok(c') && t in c'.at && c'.at[t] == c.at[t]
  {
    TickOk(c);
    NeverOvertaken(b, Calendar.Tick(c), r.before, r.m, t);
    NeverOvertaken(b, r.m, r.after, c', t);
  }

  // A thread still queued after a round was not in front, and is now exactly one slot closer.
  lemma RoundApproaches(b: Bands, c: Tds, r: Round, c': Tds, t: nat)
    requires b.Ok() && IsRound(b, c, r, c') && t in c.at && Rem(t) !in r.before && Rem(t) !in r.after
    ensures Ok(c') && t in c'.at && c'.at[t] == c.at[t]
    ensures Lag(c, t) >= 1 && Lag(c', t) == Lag(c, t) - 1
  {
    var ridx, at := RoundMoves(b, c, r, c', t);
    OneCloser(ridx, at);
  }

  lemma RoundMoves(b: Bands, c: Tds, r: Round, c': Tds, t: nat) returns (ridx: nat, at: nat)
    requires b.Ok() && IsRound(b, c, r, c') && t in c.at && Rem(t) !in r.before && Rem(t) !in r.after
    ensures Ok(c') && t in c'.at && c'.at[t] == c.at[t] == at && c.ridx == ridx && c'.ridx == (ridx + 1) % RQ_NQS
    ensures ridx < RQ_NQS && at < RQ_NQS && at != ridx
  {
    ridx, at := c.ridx, c.at[t];
    NotInFront(b, c, r, c', t);
    StaysQueued(b, c, r, c', t);
    RoundAdvances(b, c, r, c');
  }

  lemma OneCloser(ridx: nat, p: nat)
    requires ridx < RQ_NQS && p < RQ_NQS && p != ridx
    ensures Dist(ridx, p) >= 1 && Dist((ridx + 1) % RQ_NQS, p) == Dist(ridx, p) - 1
  {
  }

  ghost predicate Rounds(b: Bands, c: Tds, rs: seq<(Round, Tds)>, c': Tds)
    requires b.Ok()
    decreases |rs|
  {
    if rs == [] then c' == c
    else IsRound(b, c, rs[0].0, rs[0].1) && Rounds(b, rs[0].1, rs[1..], c')
  }

  ghost predicate NotRemoved(rs: seq<(Round, Tds)>, t: nat) {
    forall i :: 0 <= i < |rs| ==> Rem(t) !in rs[i].0.before && Rem(t) !in rs[i].0.after
  }

  // Bounded wait: a thread at distance d that is not removed is at distance d - k after k rounds, so it
  // is in front after d rounds and cannot survive another.
  lemma {:induction false} BoundedDrain(b: Bands, c: Tds, rs: seq<(Round, Tds)>, c': Tds, t: nat)
    requires b.Ok() && Ok(c) && Rounds(b, c, rs, c') && t in c.at && NotRemoved(rs, t)
    ensures |rs| <= Lag(c, t)
    ensures Ok(c') && t in c'.at && Lag(c', t) == Lag(c, t) - |rs|
    decreases |rs|
  {
    if rs != [] {
      var (r, m) := rs[0];
      assert Rem(t) !in rs[0].0.before;
      RoundApproaches(b, c, r, m, t);
      BoundedDrain(b, m, rs[1..], c', t);
    }
  }

  // Draining makes progress: while the indices differ, ordinary additions leave the front slot alone and
  // each choice takes its next thread.

  ghost predicate Draining(b: Bands, c: Tds, evs: seq<Event>)
    requires b.Ok()
    decreases |evs|
  {
    evs == [] ||
    (Ok(c) && Enabled(b, c, evs[0])
    && (match evs[0]
        case Add(_, _, kind) => kind == Ordinary
        case Rem(td) => ChooseFrom(c.slots, c.ridx) == Some(td)
        case Tick => false)
    && Draining(b, Step(b, c, evs[0]), evs[1..]))
  }

  function Removals(evs: seq<Event>): nat {
    if evs == [] then 0 else (if evs[0].Rem? then 1 else 0) + Removals(evs[1..])
  }

  lemma FrontIsChosen(c: Tds)
    requires Ok(c) && c.slots[c.ridx] != []
    ensures ChooseFrom(c.slots, c.ridx) == Some(c.slots[c.ridx][0])
  {
    NearestIsFirstFrom(c.slots, c.ridx, 0, c.ridx);
  }

  lemma DrainStep(b: Bands, c: Tds, e: Event)
    requires b.Ok() && Ok(c) && Enabled(b, c, e) && c.idx != c.ridx
    requires match e
             case Add(_, _, kind) => kind == Ordinary
             case Rem(td) => ChooseFrom(c.slots, c.ridx) == Some(td)
             case Tick => false
    ensures var m := Step(b, c, e);
      && Ok(m)
      && (m.idx != m.ridx ==>
            m.ridx == c.ridx && |m.slots[m.ridx]| == |c.slots[c.ridx]| - (if e.Rem? then 1 else 0))
  {
    StepOk(b, c, e);
    if e.Add? {
      OrdinaryPlacement(b, e.pri, c.idx, c.ridx);
    } else {
      FrontIsChosen(c);
      WithoutNoDup(c.slots[c.ridx], e.td);
    }
  }

  // Enough choices come to the moment at which the slot has drained.
  lemma {:induction false} FindDrained(b: Bands, c: Tds, evs: seq<Event>, c': Tds)
    returns (before: seq<Event>, m: Tds, after: seq<Event>)
    requires b.Ok() && Reaches(b, c, evs, c') && Draining(b, c, evs) && c.idx != c.ridx
    requires Removals(evs) >= |c.slots[c.ridx]|
    ensures evs == before + after && Reaches(b, c, before, m) && Reaches(b, m, after, c')
    ensures Ok(m) && m.slots[c.ridx] == []
    decreases |evs|
  {
    var next := DrainHead(b, c, evs, c');
    if next.idx == next.ridx {
      before, m, after := [evs[0]] + [], next, evs[1..];
    } else {
      before, m, after := FindDrained(b, next, evs[1..], c');
      before := [evs[0]] + before;
    }
  }

  // The first event of a drain: the slot has drained, or the rest of the drain is left.
  lemma DrainHead(b: Bands, c: Tds, evs: seq<Event>, c': Tds) returns (next: Tds)
    requires b.Ok() && Reaches(b, c, evs, c') && Draining(b, c, evs) && c.idx != c.ridx
    requires Removals(evs) >= |c.slots[c.ridx]|
    ensures evs != [] && Ok(next) && Reaches(b, next, evs[1..], c') && Draining(b, next, evs[1..])
    ensures next.idx == next.ridx ==> next.slots[c.ridx] == []
    ensures next.idx != next.ridx ==> next.ridx == c.ridx && Removals(evs[1..]) >= |next.slots[c.ridx]|
    ensures forall m, before :: Reaches(b, next, before, m) ==> Reaches(b, c, [evs[0]] + before, m)
  {
    next := Step(b, c, evs[0]);
    DrainStep(b, c, evs[0]);
    if next.idx == next.ridx {
      DrainedSlot(b, c, evs[0]);
    }
    forall m, before | Reaches(b, next, before, m) ensures Reaches(b, c, [evs[0]] + before, m) {
      ReachesFirst(b, c, evs[0], before, m);
    }
  }

  lemma ReachesFirst(b: Bands, c: Tds, e: Event, evs: seq<Event>, c': Tds)
    requires b.Ok() && Ok(c) && Enabled(b, c, e) && Reaches(b, Step(b, c, e), evs, c')
    ensures Reaches(b, c, [e] + evs, c')
  {
    assert ([e] + evs)[1..] == evs;
  }

  lemma DrainedSlot(b: Bands, c: Tds, e: Event)
    requires b.Ok() && Ok(c) && Enabled(b, c, e) && c.idx != c.ridx && !e.Tick?
    requires var m := Step(b, c, e); m.idx == m.ridx
    ensures c.ridx < |Step(b, c, e).slots| && Step(b, c, e).slots[c.ridx] == []
  {
  }

  // With n threads in front when the drain starts, n choices empty the slot and release the index,
  // however many ordinary threads arrive meanwhile.
  lemma DrainEnds(b: Bands, c: Tds, evs: seq<Event>, c': Tds)
    requires b.Ok() && Reaches(b, c, evs, c') && Draining(b, c, evs) && c.idx != c.ridx
    requires Removals(evs) >= |c.slots[c.ridx]|
    ensures Ok(c') && c'.ridx == c'.idx == c.idx
  {
    var before, m, after := FindDrained(b, c, evs, c');
    DrainStopsTicks(b, c, evs);
    BetweenTicks(b, c, before, m);
    BetweenTicks(b, m, after, c');
  }

  // A tick, then ordinary additions and choices alone, with as many choices as there are threads in front
  // of a lagging index.
  ghost predicate IsTurn(b: Bands, c: Tds, evs: seq<Event>, c': Tds)
    requires b.Ok() && Ok(c)
  {
    var front := Calendar.Tick(c);
    && front.ridx < |front.slots|
    && Reaches(b, front, evs, c') && Draining(b, front, evs)
    && (front.idx != front.ridx ==> Removals(evs) >= |front.slots[front.ridx]|)
  }

  // Where the slot in front is empty a tick alone is a turn.
  lemma IdleTurn(b: Bands, c: Tds)
    requires b.Ok() && Ok(c) && c.slots[c.ridx] == []
    ensures IsTurn(b, c, [], Calendar.Tick(c))
  {
    TickOk(c);
  }

  // A turn makes a round.
  lemma DrainIsRound(b: Bands, c: Tds, evs: seq<Event>, c': Tds) returns (r: Round)
    requires b.Ok() && Ok(c) && IsTurn(b, c, evs, c')
    ensures IsRound(b, c, r, c') && evs == r.before + r.after
  {
    TickOk(c);
    var front := Calendar.Tick(c);
    DrainStopsTicks(b, front, evs);
    if front.idx == front.ridx {
      r := Round([], front, evs);
    } else {
      var before, m, after := FindDrained(b, front, evs, c');
      r := Round(before, m, after);
    }
  }

  ghost predicate Turns(b: Bands, c: Tds, ts: seq<(seq<Event>, Tds)>, c': Tds)
    requires b.Ok()
    decreases |ts|
  {
    if ts == [] then c' == c
    else Ok(c) && IsTurn(b, c, ts[0].0, ts[0].1) && Turns(b, ts[0].1, ts[1..], c')
  }

  predicate ChosenIn(ts: seq<(seq<Event>, Tds)>, t: nat) {
    ts != [] && (Rem(t) in ts[0].0 || ChosenIn(ts[1..], t))
  }

  // So under ordinary additions and choices alone a thread at distance d is chosen by the time of turn
  // d + 1; until then it comes one slot closer with each turn.
  lemma {:induction false} BoundedWait(b: Bands, c: Tds, ts: seq<(seq<Event>, Tds)>, c': Tds, t: nat)
    requires b.Ok() && Ok(c) && Turns(b, c, ts, c') && t in c.at
    ensures |ts| > Lag(c, t) ==> ChosenIn(ts, t)
    ensures !ChosenIn(ts, t) ==> Ok(c') && t in c'.at && Lag(c', t) == Lag(c, t) - |ts|
    decreases |ts|
  {
    if ts != [] && Rem(t) !in ts[0].0 {
      TurnApproaches(b, c, ts[0].0, ts[0].1, t);
      BoundedWait(b, ts[0].1, ts[1..], c', t);
    }
  }

  lemma TurnApproaches(b: Bands, c: Tds, evs: seq<Event>, c': Tds, t: nat)
    requires b.Ok() && Ok(c) && IsTurn(b, c, evs, c') && t in c.at && Rem(t) !in evs
    ensures Ok(c') && t in c'.at && Lag(c, t) >= 1 && Lag(c', t) == Lag(c, t) - 1
  {
    var r := DrainIsRound(b, c, evs, c');
    RoundApproaches(b, c, r, c', t);
  }

  lemma {:induction false} DrainStopsTicks(b: Bands, c: Tds, evs: seq<Event>)
    requires b.Ok() && Draining(b, c, evs)
    ensures Tick !in evs
    decreases |evs|
  {
    if evs != [] {
      DrainStopsTicks(b, Step(b, c, evs[0]), evs[1..]);
    }
  }
}
