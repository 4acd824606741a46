/** The books of all CPUs: which threads each has queued, how many it may give away, and its load. */
module Accounts {
  import opened Queues

  // Where a thread is: not runnable, on a run queue, running on a CPU, or taken off its CPU by
  // sched_switch_migrate and not yet queued on the CPU it is bound to.
  datatype State = Off | OnRunq | Running(on: nat) | Migrating

  // td_priority, td_pinned != 0, td_cpuset, ts_cpu and the state.
  datatype Th = Th(pri: nat, pinned: bool, allowed: set<nat>, cpu: nat, state: State)

  type Threads = map<nat, Th>

  // The threads queued on one CPU, those of them with TSF_XFERABLE, and tdq_load.
  datatype Account = Account(queued: set<nat>, xfer: set<nat>, load: int)

  function QueuedHere(th: Threads, c: nat): set<nat> {
    set t | t in th && th[t].state == OnRunq && th[t].cpu == c
  }

  function One(r: Option<nat>): nat {
    if r.Some? then 1 else 0
  }

  // The running thread r of CPU c (None: its idle thread, or none between two threads).
  ghost predicate RunningOk(r: Option<nat>, th: Threads, c: nat) {
    && (r.Some? ==> r.value in th && th[r.value].state == Running(c))
    && (forall t :: t in th && th[t].state == Running(c) ==> r == Some(t))
  }

  // CPU c has queued exactly the runnable threads whose ts_cpu it is, its load counts them and the
  // thread it runs, and the transferable ones are those that are not pinned.
  ghost predicate Agrees(a: Account, r: Option<nat>, th: Threads, c: nat) {
    && a.queued == QueuedHere(th, c)
    && a.load == |a.queued| + One(r)
    && RunningOk(r, th, c)
    && a.xfer <= a.queued
    && forall t :: t in a.queued ==> (t in a.xfer <==> !th[t].pinned)
  }

  ghost predicate OnCpus(h: Th, n: nat) {
    h.cpu < n && (h.state.Running? ==> h.state.on < n)
  }

  ghost predicate Balanced(books: seq<Account>, running: seq<Option<nat>>, th: Threads) {
    && |books| == |running|
    && (forall t :: t in th ==> OnCpus(th[t], |books|))
    && forall c :: 0 <= c < |books| ==> Agrees(books[c], running[c], th, c)
  }

  // The thread is queued or running on no CPU other than c.
  ghost predicate AtMost(h: Th, c: nat) {
    (h.state.Running? ==> h.state.on == c) && (h.state == OnRunq ==> h.cpu == c)
  }

  lemma Unconcerned(a: Account, r: Option<nat>, th: Threads, t: nat, h: Th, c: nat, k: nat)
    requires Agrees(a, r, th, k) && k != c && AtMost(h, c) && (t in th ==> AtMost(th[t], c))
    ensures Agrees(a, r, th[t := h], k)
  {
    assert QueuedHere(th[t := h], k) == QueuedHere(th, k);
  }

  // A step of CPU c on thread t balances the books everywhere if it does at c.
  lemma OnlyHere(books: seq<Account>, running: seq<Option<nat>>, th: Threads, t: nat, h: Th, c: nat, a: Account,
                 r: Option<nat>)
    requires Balanced(books, running, th) && c < |books| && OnCpus(h, |books|)
    requires AtMost(h, c) && (t in th ==> AtMost(th[t], c))
    requires Agrees(a, r, th[t := h], c)
    ensures Balanced(books[c := a], running[c := r], th[t := h])
  {
    var books' := books[c := a];
    forall k | 0 <= k < |books'| ensures Agrees(books'[k], running[c := r][k], th[t := h], k) {
      if k != c {
        Unconcerned(books[k], running[k], th, t, h, c, k);
      }
    }
  }

  function Enter(a: Account, t: nat, migratable: bool): Account {
    Account(a.queued + {t}, if migratable then a.xfer + {t} else a.xfer, a.load)
  }

  function Exit(a: Account, t: nat): Account {
    Account(a.queued - {t}, a.xfer - {t}, a.load)
  }

  // Enter and Exit with the load counted in and out.

  function Join(a: Account, t: nat, migratable: bool): Account {
    Enter(a, t, migratable).(load := a.load + 1)
  }

  function Quit(a: Account, t: nat): Account {
    Exit(a, t).(load := a.load - 1)
  }

  function Unload(a: Account): Account {
    a.(load := a.load - 1)
  }

  ghost predicate IsOff(th: Threads, t: nat) {
    t in th && (th[t].state == Off || th[t].state == Migrating)
  }

  lemma EnqueueBalances(books: seq<Account>, running: seq<Option<nat>>, th: Threads, t: nat, c: nat)
    requires Balanced(books, running, th) && IsOff(th, t) && c < |books|
    ensures t !in books[c].queued
    ensures var a := Join(books[c], t, !th[t].pinned);
      Balanced(books[c := a], running, th[t := th[t].(cpu := c, state := OnRunq)])
  {
    assert Agrees(books[c], running[c], th, c);
    var a := Join(books[c], t, !th[t].pinned);
    var h := th[t].(cpu := c, state := OnRunq);
    assert QueuedHere(th[t := h], c) == a.queued;
    OnlyHere(books, running, th, t, h, c, a, running[c]);
    assert running[c := running[c]] == running;
  }

  lemma DequeueBalances(books: seq<Account>, running: seq<Option<nat>>, th: Threads, t: nat)
    requires Balanced(books, running, th) && t in th && th[t].state == OnRunq
    ensures var c := th[t].cpu; t in books[c].queued && books[c].load != 0
    ensures var c := th[t].cpu;
      Balanced(books[c := Quit(books[c], t)], running, th[t := th[t].(state := Off)])
  {
    var c := th[t].cpu;
    assert Agrees(books[c], running[c], th, c);
    var a := Quit(books[c], t);
    var h := th[t].(state := Off);
    assert QueuedHere(th[t := h], c) == a.queued;
    OnlyHere(books, running, th, t, h, c, a, running[c]);
    assert running[c := running[c]] == running;
  }

  lemma YieldBalances(books: seq<Account>, running: seq<Option<nat>>, th: Threads, t: nat, c: nat)
    requires Balanced(books, running, th) && c < |books| && running[c] == Some(t)
    ensures t in th && t !in books[c].queued
    ensures th[t].cpu == c ==>
      Balanced(books[c := Enter(books[c], t, !th[t].pinned)], running[c := None], th[t := th[t].(state := OnRunq)])
  {
    assert Agrees(books[c], running[c], th, c);
    if th[t].cpu == c {
      var a := Enter(books[c], t, !th[t].pinned);
      var h := th[t].(state := OnRunq);
      assert QueuedHere(th[t := h], c) == a.queued;
      OnlyHere(books, running, th, t, h, c, a, None);
    }
  }

  lemma LeaveBalances(books: seq<Account>, running: seq<Option<nat>>, th: Threads, t: nat, c: nat, state: State)
    requires Balanced(books, running, th) && c < |books| && running[c] == Some(t)
    requires state == Off || state == Migrating
    ensures t in th && books[c].load != 0
    ensures Balanced(books[c := Unload(books[c])], running[c := None], th[t := th[t].(state := state)])
  {
    assert Agrees(books[c], running[c], th, c);
    var h := th[t].(state := state);
    assert QueuedHere(th[t := h], c) == books[c].queued;
    OnlyHere(books, running, th, t, h, c, Unload(books[c]), None);
  }

  lemma PickBalances(books: seq<Account>, running: seq<Option<nat>>, th: Threads, t: nat, c: nat)
    requires Balanced(books, running, th) && c < |books| && running[c] == None && t in books[c].queued
    ensures t in th
    ensures Balanced(books[c := Exit(books[c], t)], running[c := Some(t)], th[t := th[t].(state := Running(c))])
  {
    assert Agrees(books[c], running[c], th, c);
    var h := th[t].(state := Running(c));
    assert QueuedHere(th[t := h], c) == Exit(books[c], t).queued;
    OnlyHere(books, running, th, t, h, c, Exit(books[c], t), Some(t));
  }

  // A change that leaves a thread where it is leaves the books as they are.
  lemma EditBalances(books: seq<Account>, running: seq<Option<nat>>, th: Threads, t: nat, h: Th)
    requires Balanced(books, running, th) && OnCpus(h, |books|)
    requires t in th ==> h.state == th[t].state
    requires t !in th ==> h.state == Off
    requires t in th && h.state == OnRunq ==> h.cpu == th[t].cpu && h.pinned == th[t].pinned
    ensures Balanced(books, running, th[t := h])
  {
    forall k | 0 <= k < |books| ensures Agrees(books[k], running[k], th[t := h], k) {
      assert QueuedHere(th[t := h], k) == QueuedHere(th, k);
    }
  }

  function Runnable(th: Threads, n: nat): set<nat> {
    set t | t in th && ((th[t].state == OnRunq && th[t].cpu < n) || (th[t].state.Running? && th[t].state.on < n))
  }

  lemma RunnableHere(r: Option<nat>, th: Threads, c: nat)
    requires RunningOk(r, th, c)
    ensures |Runnable(th, c + 1)| == |Runnable(th, c)| + |QueuedHere(th, c)| + One(r)
  {
    var run := if r.Some? then {r.value} else {};
    RunnableParts(r, th, c, run);
    PartSizes(Runnable(th, c), run, QueuedHere(th, c));
  }

  lemma RunnableParts(r: Option<nat>, th: Threads, c: nat, run: set<nat>)
    requires RunningOk(r, th, c) && run == if r.Some? then {r.value} else {}
    ensures Runnable(th, c + 1) == Runnable(th, c) + run + QueuedHere(th, c)
    ensures Runnable(th, c) !! run && Runnable(th, c) + run !! QueuedHere(th, c)
  {
  }

  lemma PartSizes(a: set<nat>, b: set<nat>, c: set<nat>)
    requires a !! b && a + b !! c
    ensures |a + b + c| == |a| + |b| + |c|
  {
    UnionSize(a, b);
    UnionSize(a + b, c);
  }

  lemma UnionSize(a: set<nat>, b: set<nat>)
    requires a !! b
    ensures |a + b| == |a| + |b|
  {
  }

  function TotalLoad(books: seq<Account>): int {
    if books == [] then 0 else TotalLoad(books[..|books| - 1]) + books[|books| - 1].load
  }

  // The loads of all CPUs add up to the number of runnable and running threads.
  lemma {:induction false} TotalLoadCounts(books: seq<Account>, running: seq<Option<nat>>, th: Threads, n: nat)
    requires Balanced(books, running, th) && n <= |books|
    ensures TotalLoad(books[..n]) == |Runnable(th, n)|
  {
    if n == 0 {
      assert Runnable(th, 0) == {};
    } else {
      TotalLoadCounts(books, running, th, n - 1);
      assert books[..n][..n - 1] == books[..n - 1];
      assert Agrees(books[n - 1], running[n - 1], th, n - 1);
      RunnableHere(running[n - 1], th, n - 1);
    }
  }
}
