/** All CPUs of the ULE scheduler: what every step of every CPU keeps, whatever the order of the steps. */
module Smp {
  import opened Queues
  import opened Calendar
  import opened Tdqs
  import opened Accounts
  import opened Chains

  // running[c] is the thread CPU c runs; None while it runs its idle thread or is between two threads.
  datatype Machine = Machine(cpus: seq<Tdq<nat>>, running: seq<Option<nat>>, th: Threads) {
    ghost predicate Cpu(c: nat) {
      c < |cpus| && |running| == |cpus|
    }

    ghost predicate Busy(c: nat) {
      Cpu(c) && running[c].Some? && running[c].value in th
    }
  }

  function Book(d: Tdq<nat>): Account {
    Account(Queued(d), d.xfer, d.load)
  }

  function Books(cpus: seq<Tdq<nat>>): (b: seq<Account>)
    ensures |b| == |cpus| && forall c :: 0 <= c < |b| ==> b[c] == Book(cpus[c])
  {
    seq(|cpus|, c requires 0 <= c < |cpus| => Book(cpus[c]))
  }

  ghost predicate AllOk(cpus: seq<Tdq<nat>>) {
    forall c :: 0 <= c < |cpus| ==> TdqOk(cpus[c])
  }

  // Every queue is in order, calendar included, and the books balance.
  ghost predicate Inv(m: Machine) {
    AllOk(m.cpus) && Balanced(Books(m.cpus), m.running, m.th)
  }

  // The operations the steps are made of.

  ghost predicate IsQueued(m: Machine, t: nat) {
    t in m.th && m.th[t].state == OnRunq
  }

  ghost predicate Fit(b: Bands, m: Machine, pri: nat, c: nat, how: How) {
    m.Cpu(c) && CanAdd(b, m.cpus[c], pri, how)
  }

  // sched_setcpu and tdq_add
  function Enqueue(b: Bands, m: Machine, t: nat, c: nat, how: How): (m': Machine)
    requires Inv(m) && IsOff(m.th, t) && Fit(b, m, m.th[t].pri, c, how)
    ensures Inv(m') && Books(m'.cpus) == Books(m.cpus)[c := Join(Books(m.cpus)[c], t, !m.th[t].pinned)]
    ensures m'.running == m.running && m'.th == m.th[t := m.th[t].(cpu := c, state := OnRunq)]
  {
    var d := m.cpus[c];
    var h := m.th[t];
    EnqueueBalances(Books(m.cpus), m.running, m.th, t, c);
    AddBook(b, d, t, h.pri, !h.pinned, how);
    var d' := Tdqs.Add(b, d, t, h.pri, !h.pinned, how);
    KeepBooks(m.cpus, c, d');
    m.(cpus := m.cpus[c := d'], th := m.th[t := h.(cpu := c, state := OnRunq)])
  }

  // sched_rem, which looks for the thread on TDQ_CPU(ts_cpu)
  function Dequeue(m: Machine, t: nat): (m': Machine)
    requires Inv(m) && IsQueued(m, t)
    ensures Inv(m') && Books(m'.cpus) == Books(m.cpus)[m.th[t].cpu := Quit(Books(m.cpus)[m.th[t].cpu], t)]
    ensures m'.running == m.running && m'.th == m.th[t := m.th[t].(state := Off)]
  {
    var c := m.th[t].cpu;
    DequeueBalances(Books(m.cpus), m.running, m.th, t);
    RemBook(m.cpus[c], t);
    var d' := Tdqs.Rem(m.cpus[c], t);
    KeepBooks(m.cpus, c, d');
    m.(cpus := m.cpus[c := d'], th := m.th[t := m.th[t].(state := Off)])
  }

  // sched_switch of a thread that stays on its CPU: tdq_runq_add without tdq_load_add
  ghost function Yield(b: Bands, m: Machine, c: nat, how: How): (m': Machine)
    requires Inv(m) && m.Busy(c) && m.th[m.running[c].value].cpu == c
    requires Fit(b, m, m.th[m.running[c].value].pri, c, how)
    ensures Inv(m') && m'.running == m.running[c := None]
    ensures var t := m.running[c].value;
      && m'.th == m.th[t := m.th[t].(state := OnRunq)]
      && Books(m'.cpus) == Books(m.cpus)[c := Enter(Books(m.cpus)[c], t, !m.th[t].pinned)]
  {
    var t := m.running[c].value;
    var h := m.th[t];
    YieldBalances(Books(m.cpus), m.running, m.th, t, c);
    RunqAddBook(b, m.cpus[c], t, h.pri, !h.pinned, how);
    var d' := RunqAdd(b, m.cpus[c], t, h.pri, !h.pinned, how);
    KeepBooks(m.cpus, c, d');
    Machine(m.cpus[c := d'], m.running[c := None], m.th[t := h.(state := OnRunq)])
  }

  // tdq_load_rem of the thread that leaves CPU c
  ghost function Leave(m: Machine, c: nat, state: State): (m': Machine)
    requires Inv(m) && m.Busy(c) && (state == Off || state == Migrating)
    ensures Inv(m') && m'.running == m.running[c := None]
    ensures var t := m.running[c].value; m'.th == m.th[t := m.th[t].(state := state)]
    ensures Books(m'.cpus) == Books(m.cpus)[c := Unload(Books(m.cpus)[c])]
  {
    var t := m.running[c].value;
    LeaveBalances(Books(m.cpus), m.running, m.th, t, c, state);
    var d' := LoadRem(m.cpus[c]);
    UnloadBook(m.cpus[c]);
    KeepBooks(m.cpus, c, d');
    Machine(m.cpus[c := d'], m.running[c := None], m.th[t := m.th[t].(state := state)])
  }

  // sched_choose
  ghost function Pick(m: Machine, c: nat): (m': Machine)
    requires Inv(m) && m.Cpu(c) && m.running[c].None?
    ensures Inv(m')
    ensures match Choose(m.cpus[c])
      case None => m' == m && Queued(m.cpus[c]) == {}
      case Some(t) =>
        && TdqOk(m.cpus[c]) && ChosenRight(m.cpus[c], t)
        && t in m.th && m'.th == m.th[t := m.th[t].(state := Running(c))] && m'.running == m.running[c := Some(t)]
        && Books(m'.cpus) == Books(m.cpus)[c := Exit(Books(m.cpus)[c], t)]
  {
    ChooseOk(m.cpus[c]);
    match Choose(m.cpus[c])
    case None => m
    case Some(t) =>
      PickBalances(Books(m.cpus), m.running, m.th, t, c);
      RunqRemBook(m.cpus[c], t);
      var d' := RunqRem(m.cpus[c], t);
      KeepBooks(m.cpus, c, d');
      Machine(m.cpus[c := d'], m.running[c := Some(t)], m.th[t := m.th[t].(state := Running(c))])
  }

  lemma RunqAddBook(b: Bands, d: Tdq<nat>, t: nat, pri: nat, migratable: bool, how: How)
    requires TdqOk(d) && t !in Book(d).queued && CanAdd(b, d, pri, how)
    ensures var d' := RunqAdd(b, d, t, pri, migratable, how); TdqOk(d') && Book(d') == Enter(Book(d), t, migratable)
  {
    RunqAddOk(b, d, t, pri, migratable, how);
  }

  lemma AddBook(b: Bands, d: Tdq<nat>, t: nat, pri: nat, migratable: bool, how: How)
    requires TdqOk(d) && t !in Book(d).queued && CanAdd(b, d, pri, how)
    ensures var d' := Tdqs.Add(b, d, t, pri, migratable, how); TdqOk(d') && Book(d') == Join(Book(d), t, migratable)
  {
    RunqAddBook(b, d, t, pri, migratable, how);
    LoadBook(RunqAdd(b, d, t, pri, migratable, how), Tdqs.Add(b, d, t, pri, migratable, how));
  }

  lemma RunqRemBook(d: Tdq<nat>, t: nat)
    requires TdqOk(d) && t in Book(d).queued
    ensures var d' := RunqRem(d, t); TdqOk(d') && Book(d') == Exit(Book(d), t)
  {
    RunqRemOk(d, t);
  }

  lemma RemBook(d: Tdq<nat>, t: nat)
    requires TdqOk(d) && t in Book(d).queued && d.load != 0
    ensures var d' := Tdqs.Rem(d, t); TdqOk(d') && Book(d') == Quit(Book(d), t)
  {
    RunqRemBook(d, t);
    LoadBook(RunqRem(d, t), Tdqs.Rem(d, t));
  }

  lemma LoadBook(d: Tdq<nat>, d': Tdq<nat>)
    requires TdqOk(d) && d' == d.(load := d'.load)
    ensures TdqOk(d') && Book(d') == Book(d).(load := d'.load)
  {
    SameQueues(d, d');
  }

  lemma UnloadBook(d: Tdq<nat>)
    requires TdqOk(d) && d.load != 0
    ensures TdqOk(LoadRem(d)) && Book(LoadRem(d)) == Unload(Book(d))
  {
    LoadBook(d, LoadRem(d));
  }

  lemma KeepBooks(cpus: seq<Tdq<nat>>, c: nat, d: Tdq<nat>)
    requires c < |cpus| && AllOk(cpus) && TdqOk(d)
    ensures AllOk(cpus[c := d]) && Books(cpus[c := d]) == Books(cpus)[c := Book(d)]
  {
  }

  // The threads THREAD_CAN_MIGRATE and THREAD_CAN_SCHED let go to a CPU.
  function MayMove(th: Threads, to: nat): set<nat> {
    set t | t in th && !th[t].pinned && to in th[t].allowed
  }

  ghost predicate CanMove(b: Bands, m: Machine, from: nat, to: nat, how: How) {
    && Inv(m) && m.Cpu(from) && m.Cpu(to) && from != to
    && var r := Steal(m.cpus[from], MayMove(m.th, to));
       r.Some? && r.value in m.th ==> Fit(b, m, m.th[r.value].pri, to, how)
  }

  // A move of thread t changes nothing but its CPU, to one it may use, and the books of the two CPUs.
  ghost predicate Moved(m: Machine, m': Machine, t: nat, from: nat, to: nat) {
    && t in m.th && m.th[t].state == OnRunq && m.th[t].cpu == from && !m.th[t].pinned && to in m.th[t].allowed
    && m'.running == m.running && m'.th == m.th[t := m.th[t].(cpu := to)]
    && from < |m.cpus| && to < |m.cpus| && from != to
    && Books(m'.cpus) == Books(m.cpus)[from := Quit(Books(m.cpus)[from], t)][to := Join(Books(m.cpus)[to], t, true)]
  }

  // sched_rem, a new ts_cpu and tdq_add
  function Transfer(b: Bands, m: Machine, t: nat, to: nat, how: How): (m': Machine)
    requires Inv(m) && IsQueued(m, t) && m.th[t].cpu != to && Fit(b, m, m.th[t].pri, to, how)
    ensures Inv(m') && m'.running == m.running && m'.th == m.th[t := m.th[t].(cpu := to)]
    ensures Books(m'.cpus) == var bs := Books(m.cpus); var from := m.th[t].cpu;
      bs[from := Quit(bs[from], t)][to := Join(bs[to], t, !m.th[t].pinned)]
  {
    var m1 := Dequeue(m, t);
    assert m1.cpus[to] == m.cpus[to] && Books(m1.cpus)[to] == Books(m.cpus)[to];
    Overwrite(m.th, t, m.th[t].(state := Off), m.th[t].(cpu := to));
    Enqueue(b, m1, t, to, how)
  }

  lemma Overwrite(th: Threads, t: nat, h: Th, h': Th)
    ensures th[t := h][t := h'] == th[t := h']
  {
  }

  // tdq_move
  function Move(b: Bands, m: Machine, from: nat, to: nat, how: How): (m': Machine)
    requires CanMove(b, m, from, to, how)
    ensures Inv(m')
    ensures match Steal(m.cpus[from], MayMove(m.th, to))
      case None => m' == m
      case Some(t) => Moved(m, m', t, from, to)
  {
    StolenMayMove(m, from, to);
    match Steal(m.cpus[from], MayMove(m.th, to))
    case None => m
    case Some(t) => Transfer(b, m, t, to, how)
  }

  // What tdq_steal finds is queued on that CPU, not pinned, and allowed on the CPU it is stolen for.
  lemma StolenMayMove(m: Machine, from: nat, to: nat)
    requires Inv(m) && m.Cpu(from)
    ensures var r := Steal(m.cpus[from], MayMove(m.th, to));
      r.Some? ==> var t := r.value;
        t in Queued(m.cpus[from]) && IsQueued(m, t) && m.th[t].cpu == from && !m.th[t].pinned && to in m.th[t].allowed
  {
    StealSound(m.cpus[from], MayMove(m.th, to));
    assert Agrees(Books(m.cpus)[from], m.running[from], m.th, from);
  }

  // A change to a thread that is not queued, or that keeps a queued one where it is.
  ghost function Edit(m: Machine, t: nat, h: Th): (m': Machine)
    requires Inv(m) && OnCpus(h, |m.cpus|)
    requires t in m.th ==> h.state == m.th[t].state
    requires t !in m.th ==> h.state == Off
    requires t in m.th && h.state == OnRunq ==> h.cpu == m.th[t].cpu && h.pinned == m.th[t].pinned
    ensures Inv(m') && m' == m.(th := m.th[t := h])
  {
    EditBalances(Books(m.cpus), m.running, m.th, t, h);
    m.(th := m.th[t := h])
  }

  // sched_pickcpu gives a pinned thread its own CPU.
  ghost predicate Picks(h: Th, c: nat) {
    h.pinned ==> c == h.cpu
  }

  ghost predicate CanChange(b: Bands, m: Machine, t: nat, pri: nat, move: bool, c: nat, how: How)
    requires Inv(m) && t in m.th
  {
    move && IsQueued(m, t) ==> Picks(m.th[t], c) && Fit(b, Dequeue(m, t), pri, c, how)
  }

  // A change of priority or cpuset: a queued thread that must move for it goes through sched_rem and
  // sched_add; any other keeps its place.
  ghost function Change(b: Bands, m: Machine, t: nat, pri: nat, allowed: set<nat>, move: bool, c: nat, how: How)
    : (m': Machine)
    requires Inv(m) && t in m.th && CanChange(b, m, t, pri, move, c, how)
    ensures Inv(m') && m'.running == m.running
    ensures var h := m.th[t].(pri := pri, allowed := allowed);
      m'.th == m.th[t := if move && IsQueued(m, t) then h.(cpu := c) else h]
  {
    var h := m.th[t].(pri := pri, allowed := allowed);
    if move && IsQueued(m, t) then Requeue(b, m, t, h, c, how) else Edit(m, t, h)
  }

  // sched_rem, a change to the thread, and sched_add
  ghost function Requeue(b: Bands, m: Machine, t: nat, h: Th, c: nat, how: How): (m': Machine)
    requires Inv(m) && IsQueued(m, t) && h.cpu == m.th[t].cpu && h.state == OnRunq
    requires Fit(b, Dequeue(m, t), h.pri, c, how)
    ensures Inv(m') && m'.running == m.running && m'.th == m.th[t := h.(cpu := c)]
  {
    var off := m.th[t].(state := Off);
    Overwrite(m.th, t, off, h.(state := Off));
    Overwrite(m.th, t, h.(state := Off), h.(cpu := c));
    Enqueue(b, Edit(Dequeue(m, t), t, h.(state := Off)), t, c, how)
  }

  // The index rotation of sched_clock on CPU c.
  ghost function Clock(m: Machine, c: nat): (m': Machine)
    requires Inv(m) && m.Cpu(c)
    ensures Inv(m') && m'.th == m.th && m'.running == m.running && Books(m'.cpus) == Books(m.cpus)
    ensures |m'.cpus| == |m.cpus| && forall k :: 0 <= k < |m.cpus| && k != c ==> m'.cpus[k] == m.cpus[k]
  {
    var d := m.cpus[c];
    TickAllOk(d);
    var d' := d.(ts := Tick(d.ts));
    KeepBooks(m.cpus, c, d');
    assert Books(m.cpus)[c := Book(d')] == Books(m.cpus);
    m.(cpus := m.cpus[c := d'])
  }

  datatype Event =
    | Create(t: nat, h: Th)                    // sched_fork_thread
    | Wake(t: nat, c: nat, how: How)           // sched_add
    | Stay(c: nat, how: How)                   // sched_switch, ts_cpu is this CPU
    | Rebind(c: nat, to: nat)                  // ts_cpu of the running thread: sched_bind, sched_switch
    | Migrate(c: nat)                          // sched_switch_migrate, up to thread_lock_block
    | Land(t: nat, how: How)                   // sched_switch_migrate, with both queues locked
    | Sleep(c: nat)                            // sched_switch of a sleeping thread, sched_throw
    | Next(c: nat)                             // choosethread
    | Steals(from: nat, to: nat, how: How)     // tdq_move: balancer, idle stealing
    | Prio(t: nat, pri: nat, c: nat, how: How) // sched_thread_priority
    | Affinity(t: nat, allowed: set<nat>, c: nat, how: How) // sched_affinity
    | Pin(c: nat, pinned: bool)                // sched_pin, sched_unpin, sched_bind, sched_unbind
    | Hardclock(c: nat)                        // sched_clock

  ghost predicate Steps(b: Bands, m: Machine, e: Event, m': Machine)
    requires Inv(m)
  {
    match e
    case Create(t, h) => t !in m.th && h.state == Off && h.cpu < |m.cpus| && m' == Edit(m, t, h)
    case Wake(t, c, how) => Asleep(m, t) && Picks(m.th[t], c) && Fit(b, m, m.th[t].pri, c, how)
                            && m' == Enqueue(b, m, t, c, how)
    case Stay(c, how) => Home(m, c) && Fit(b, m, m.th[m.running[c].value].pri, c, how) && m' == Yield(b, m, c, how)
    case Rebind(c, to) => m.Busy(c) && to < |m.cpus| && m' == EditRunning(m, c, m.th[m.running[c].value].(cpu := to))
    case Migrate(c) => m.Busy(c) && !Home(m, c) && m' == Leave(m, c, Migrating)
    case Land(t, how) => t in m.th && m.th[t].state == Migrating && Fit(b, m, m.th[t].pri, m.th[t].cpu, how)
                         && m' == Enqueue(b, m, t, m.th[t].cpu, how)
    case Sleep(c) => m.Busy(c) && m' == Leave(m, c, Off)
    case Next(c) => m.Cpu(c) && m.running[c].None? && m' == Pick(m, c)
    case Steals(from, to, how) => CanMove(b, m, from, to, how) && m' == Move(b, m, from, to, how)
    case Prio(t, pri, c, how) =>
      && t in m.th && CanChange(b, m, t, pri, pri < m.th[t].pri, c, how)
      && m' == Change(b, m, t, pri, m.th[t].allowed, pri < m.th[t].pri, c, how)
    case Affinity(t, allowed, c, how) =>
      && t in m.th && CanChange(b, m, t, m.th[t].pri, m.th[t].cpu !in allowed, c, how)
      && m' == Change(b, m, t, m.th[t].pri, allowed, m.th[t].cpu !in allowed, c, how)
    case Pin(c, pinned) => m.Busy(c) && m' == EditRunning(m, c, m.th[m.running[c].value].(pinned := pinned))
    case Hardclock(c) => m.Cpu(c) && m' == Clock(m, c)
  }

  ghost predicate Asleep(m: Machine, t: nat) {
    t in m.th && m.th[t].state == Off
  }

  // The running thread's ts_cpu is the CPU it runs on.
  ghost predicate Home(m: Machine, c: nat) {
    m.Busy(c) && m.th[m.running[c].value].cpu == c
  }

  ghost function EditRunning(m: Machine, c: nat, h: Th): (m': Machine)
    requires Inv(m) && m.Busy(c) && OnCpus(h, |m.cpus|) && h.state == m.th[m.running[c].value].state
    ensures Inv(m')
  {
    assert Agrees(Books(m.cpus)[c], m.running[c], m.th, c);
    Edit(m, m.running[c].value, h)
  }

  // sched_setup: every queue empty, and thread 0 running on the boot CPU with its load counted.
  ghost predicate Initial(m: Machine, boot: nat) {
    && AllOk(m.cpus) && m.Cpu(boot)
    && (forall c :: 0 <= c < |m.cpus| ==>
          Queued(m.cpus[c]) == {} && m.cpus[c].load == (if c == boot then 1 else 0)
          && m.running[c] == (if c == boot then Some(0) else None))
    && m.th.Keys == {0} && m.th[0].cpu == boot && m.th[0].state == Running(boot)
  }

  lemma InitialOk(m: Machine, boot: nat)
    requires Initial(m, boot)
    ensures Inv(m)
  {
    forall c | 0 <= c < |m.cpus| ensures Agrees(Books(m.cpus)[c], m.running[c], m.th, c) {
      assert QueuedHere(m.th, c) == {};
      assert m.cpus[c].xfer <= Queued(m.cpus[c]);
    }
  }

  // Every step is taken from, and leads to, a machine in order.
  ghost function Moves(b: Bands): (Machine, Event, Machine) -> bool {
    (m, e, m') => Inv(m) && Steps(b, m, e, m')
  }

  lemma StaysBalanced(b: Bands, m: Machine, es: seq<Event>, m': Machine)
    requires Inv(m) && Chain(Moves(b), m, es, m')
    ensures Inv(m')
  {
    forall a, e, a' | Inv(a) && Moves(b)(a, e, a') ensures Inv(a') {}
    Always(Moves(b), Inv, m, es, m');
  }

  // What the counters of CPU c are for: its load is the number of threads queued there plus the one it
  // runs, transferable counts the queued threads that are not pinned, and a thread is queued on
  // TDQ_CPU(ts_cpu) and nowhere else.
  ghost predicate Accounted(d: Tdq<nat>, r: Option<nat>, th: Threads, c: nat) {
    && d.load == |Queued(d)| + (if r.Some? then 1 else 0)
    && Queued(d) == (set t | t in th && th[t].state == OnRunq && th[t].cpu == c)
    && d.transferable == |set t | t in th && t in Queued(d) && !th[t].pinned|
  }

  // So it is in every state that steps of any CPUs in any order lead to, and all the loads add up to the
  // number of threads that are runnable or running.
  lemma AccountingHolds(b: Bands, m: Machine, boot: nat, es: seq<Event>, m': Machine)
    requires Initial(m, boot) && Chain(Moves(b), m, es, m')
    ensures |m'.cpus| == |m'.running|
    ensures forall c :: 0 <= c < |m'.cpus| ==> Accounted(m'.cpus[c], m'.running[c], m'.th, c)
    ensures TotalLoad(Books(m'.cpus)) == |Runnable(m'.th, |m'.cpus|)|
  {
    InitialOk(m, boot);
    StaysBalanced(b, m, es, m');
    BalancedCounts(m');
  }

  lemma BalancedCounts(m: Machine)
    requires Inv(m)
    ensures forall c :: 0 <= c < |m.cpus| ==> Accounted(m.cpus[c], m.running[c], m.th, c)
    ensures TotalLoad(Books(m.cpus)) == |Runnable(m.th, |m.cpus|)|
  {
    forall c | 0 <= c < |m.cpus| ensures Accounted(m.cpus[c], m.running[c], m.th, c) {
      assert Agrees(Books(m.cpus)[c], m.running[c], m.th, c);
      AgreesCounts(m.cpus[c], m.running[c], m.th, c);
    }
    TotalLoadCounts(Books(m.cpus), m.running, m.th, |m.cpus|);
    assert Books(m.cpus)[..|m.cpus|] == Books(m.cpus);
  }

  lemma AgreesCounts(d: Tdq<nat>, r: Option<nat>, th: Threads, c: nat)
    requires TdqOk(d) && Agrees(Book(d), r, th, c)
    ensures Accounted(d, r, th, c)
  {
    XferIsUnpinned(Book(d), r, th, c);
  }

  lemma XferIsUnpinned(a: Account, r: Option<nat>, th: Threads, c: nat)
    requires Agrees(a, r, th, c)
    ensures a.xfer == set t | t in th && t in a.queued && !th[t].pinned
  {
  }
}
