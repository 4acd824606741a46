/** The search of the CPU topology tree for the least or most loaded CPU: cpu_search of sched_ule.c. */
module Topology {
  import opened Queues

  const INT_MAX: int := 0x7fff_ffff
  const INT_MIN: int := -0x8000_0000

  // struct cpu_group: cg_mask and cg_child
  datatype Group = Group(mask: set<nat>, children: seq<Group>)

  // What the search reads of each CPU: tdq_load, tdq_lowpri and tdq_transferable.
  datatype Cpus = Cpus(load: seq<int>, lowpri: seq<nat>, transferable: seq<int>) {
    predicate Ok() {
      |load| == |lowpri| == |transferable|
    }
  }

  ghost predicate WellFormed(g: Group, n: nat) {
    && (forall c :: c in g.mask ==> c < n)
    && forall i :: 0 <= i < |g.children| ==> g.children[i].mask <= g.mask && WellFormed(g.children[i], n)
  }

  // The CPUs of a mask that none of the groups covers, in the order the search strikes them out.
  function Uncovered(mask: set<nat>, groups: seq<Group>): set<nat> {
    if groups == [] then mask
    else Uncovered(mask, groups[1..]) - groups[0].mask
  }

  function Rest(g: Group): set<nat> {
    Uncovered(g.mask, g.children)
  }

  // Sums of CPU weights, of any CPUs, groups of children, and a whole group.

  ghost function Sum(w: seq<int>, s: set<nat>): int
    requires forall c :: c in s ==> c < |w|
  {
    if s == {} then 0 else var c :| c in s; w[c] + Sum(w, s - {c})
  }

  ghost function Total(w: seq<int>, g: Group): int
    requires WellFormed(g, |w|)
    decreases g, |g.children| + 1
  {
    RestWithin(g.mask, g.children);
    TotalOf(w, g, |g.children|) + Sum(w, Rest(g))
  }

  // The weight of the last n children of the group.
  ghost function TotalOf(w: seq<int>, g: Group, n: nat): int
    requires WellFormed(g, |w|) && n <= |g.children|
    decreases g, n
  {
    if n == 0 then 0 else TotalOf(w, g, n - 1) + Total(w, g.children[|g.children| - n])
  }

  lemma {:induction false} RestWithin(mask: set<nat>, groups: seq<Group>)
    ensures Uncovered(mask, groups) <= mask
    ensures forall c :: c in mask ==>
      c in Uncovered(mask, groups) || exists i :: 0 <= i < |groups| && c in groups[i].mask
  {
    if groups != [] {
      RestWithin(mask, groups[1..]);
      forall c | c in mask && c !in Uncovered(mask, groups)
        ensures exists i :: 0 <= i < |groups| && c in groups[i].mask
      {
        if c !in groups[0].mask {
          var i :| 0 <= i < |groups| - 1 && c in groups[1..][i].mask;
          assert c in groups[i + 1].mask;
        }
      }
    }
  }

  lemma {:induction false} SumSplit(w: seq<int>, s: set<nat>, c: nat)
    requires forall c :: c in s ==> c < |w|
    requires c in s
    ensures Sum(w, s) == w[c] + Sum(w, s - {c})
  {
    var d :| d in s && Sum(w, s) == w[d] + Sum(w, s - {d});
    if d != c {
      SumSplit(w, s - {d}, c);
      SumSplit(w, s - {c}, d);
      assert s - {d} - {c} == s - {c} - {d};
    }
  }

  ghost predicate HasEligible(g: Group, e: set<nat>) {
    exists c :: c in g.mask && c in e
  }

  // No child group or CPU of the group that holds an eligible CPU weighs less than v.
  ghost predicate Least(w: seq<int>, e: set<nat>, g: Group, v: int)
    requires WellFormed(g, |w|)
  {
    && (forall i :: 0 <= i < |g.children| && HasEligible(g.children[i], e) ==> v <= Total(w, g.children[i]))
    && (forall c :: c in Rest(g) && c in e && c < |w| ==> v <= w[c])
  }

  // The CPU is eligible, and at each level of its path the chosen child is the least of those holding an
  // eligible CPU.
  ghost predicate LeastPath(w: seq<int>, e: set<nat>, g: Group, cpu: nat)
    requires WellFormed(g, |w|)
  {
    || (cpu in Rest(g) && cpu in e && cpu < |w| && Least(w, e, g, w[cpu]))
    || exists i ::
         0 <= i < |g.children| && LeastPath(w, e, g.children[i], cpu) && Least(w, e, g, Total(w, g.children[i]))
  }

  lemma {:induction false} LeastPathEligible(w: seq<int>, e: set<nat>, g: Group, cpu: nat)
    requires WellFormed(g, |w|) && LeastPath(w, e, g, cpu)
    ensures cpu in g.mask && cpu in e
    decreases g
  {
    RestWithin(g.mask, g.children);
    if !(cpu in Rest(g) && cpu in e) {
      var i :| 0 <= i < |g.children| && LeastPath(w, e, g.children[i], cpu);
      LeastPathEligible(w, e, g.children[i], cpu);
    }
  }

  // On a machine without nested groups the least path is the least CPU.
  lemma FlatLeast(w: seq<int>, e: set<nat>, g: Group, cpu: nat)
    requires WellFormed(g, |w|) && g.children == []
    ensures LeastPath(w, e, g, cpu) <==>
      cpu in g.mask && cpu in e && forall c :: c in g.mask && c in e ==> w[cpu] <= w[c]
  {
  }

  // The search parameters of cpu_search_lowest: cs_mask, cs_prefer, cs_pri and cs_limit.
  datatype Low = Low(mask: set<nat>, prefer: nat, pri: int, limit: int)

  predicate LowOk(s: Cpus, q: Low, c: nat) {
    c in q.mask && c < |s.load| == |s.lowpri| && s.lowpri[c] > q.pri && s.load[c] <= q.limit
  }

  // The search parameters of cpu_search_highest: cs_mask and cs_limit.
  datatype High = High(mask: set<nat>, limit: int)

  predicate HighOk(s: Cpus, q: High, c: nat) {
    c in q.mask && c < |s.load| == |s.transferable| && s.load[c] >= q.limit && s.transferable[c] != 0
  }

  // The eligible CPUs of a group.

  ghost function LowSet(g: Group, s: Cpus, q: Low): set<nat> {
    set c | c in g.mask && LowOk(s, q, c)
  }

  ghost function HighSet(g: Group, s: Cpus, q: High): set<nat> {
    set c | c in g.mask && HighOk(s, q, c)
  }

  // The weights the search for the least loaded CPU compares; the search for the most loaded one compares
  // the same with the opposite sign, and prefers no CPU.

  function LowWeight(s: Cpus, prefer: nat, c: nat): int
    requires c < |s.load|
  {
    s.load[c] * 256 - (if c == prefer then 64 else 0)
  }

  function LowWeights(s: Cpus, prefer: nat): (w: seq<int>)
    ensures |w| == |s.load| && forall c :: 0 <= c < |w| ==> w[c] == LowWeight(s, prefer, c)
  {
    seq(|s.load|, c requires 0 <= c < |s.load| => LowWeight(s, prefer, c))
  }

  function HighWeights(s: Cpus): (w: seq<int>)
    ensures |w| == |s.load| && forall c :: 0 <= c < |w| ==> w[c] == -256 * s.load[c]
  {
    seq(|s.load|, c requires 0 <= c < |s.load| => -256 * s.load[c])
  }

  // No load computed in the tree reaches the initial minimum INT_MAX, or the initial maximum INT_MIN.
  ghost predicate Bounded(w: seq<int>, g: Group)
    requires WellFormed(g, |w|)
  {
    && (forall c :: c in g.mask ==> w[c] < INT_MAX)
    && forall i :: 0 <= i < |g.children| ==> Total(w, g.children[i]) < INT_MAX && Bounded(w, g.children[i])
  }

  // Sibling groups share no CPU.
  ghost predicate Apart(g: Group) {
    && (forall i, j :: 0 <= i < j < |g.children| ==> g.children[i].mask !! g.children[j].mask)
    && forall i :: 0 <= i < |g.children| ==> Apart(g.children[i])
  }

  // The CPUs of the last n children.
  ghost function Covered(g: Group, n: nat): set<nat>
    requires n <= |g.children|
  {
    if n == 0 then {} else Covered(g, n - 1) + g.children[|g.children| - n].mask
  }

  lemma {:induction false} CoveredIs(g: Group, n: nat)
    requires n <= |g.children|
    ensures forall c :: c in Covered(g, n) <==>
      exists i :: |g.children| - n <= i < |g.children| && c in g.children[i].mask
  {
    if n > 0 {
      CoveredIs(g, n - 1);
    }
  }

  lemma NextApart(g: Group, n: nat)
    requires n < |g.children| && Apart(g)
    ensures Covered(g, n) !! g.children[|g.children| - n - 1].mask
  {
    CoveredIs(g, n);
  }

  ghost predicate AtMost(w: seq<int>, s: set<nat>, k: nat) {
    forall c :: c in s ==> c < |w| && w[c] <= k
  }

  lemma {:induction false} SumFits(w: seq<int>, s: set<nat>, k: nat)
    requires AtMost(w, s, k)
    ensures Sum(w, s) <= k * |s|
  {
    if s != {} {
      var c :| c in s && Sum(w, s) == w[c] + Sum(w, s - {c});
      SumFits(w, s - {c}, k);
      assert |s - {c}| == |s| - 1;
      Distribute(k, |s| - 1, 1);
    }
  }

  lemma Distribute(k: nat, a: nat, b: nat)
    ensures k * (a + b) == k * a + k * b
  {
  }

  lemma Larger(k: nat, a: nat, b: nat)
    requires a <= b
    ensures k * a <= k * b
  {
  }

  lemma SubsetSize(a: set<nat>, b: set<nat>)
    requires a <= b
    ensures |a| <= |b|
  {
    assert b == a + (b - a);
  }

  lemma PartsFit(k: nat, a: set<nat>, b: set<nat>, all: set<nat>)
    requires a !! b && a <= all && b <= all
    ensures k * |a| + k * |b| <= k * |all|
  {
    assert |a + b| == |a| + |b|;
    SubsetSize(a + b, all);
    Distribute(k, |a|, |b|);
    Larger(k, |a| + |b|, |all|);
  }

  // The weight of a group is at most its number of CPUs times the greatest weight.

  // The CPUs of the last n children, each child counted by itself.
  function Heads(g: Group, n: nat): nat
    requires n <= |g.children|
  {
    if n == 0 then 0 else Heads(g, n - 1) + |g.children[|g.children| - n].mask|
  }

  lemma {:induction false} HeadsCovered(g: Group, n: nat)
    requires Apart(g) && n <= |g.children|
    ensures Heads(g, n) == |Covered(g, n)|
  {
    if n > 0 {
      HeadsCovered(g, n - 1);
      HeadCounted(g, n - 1);
    }
  }

  lemma HeadCounted(g: Group, n: nat)
    requires n < |g.children| && Apart(g)
    ensures |Covered(g, n + 1)| == |Covered(g, n)| + |g.children[|g.children| - n - 1].mask|
  {
    var head := g.children[|g.children| - n - 1].mask;
    NextApart(g, n);
    UnionSize(Covered(g, n), head);
    assert Covered(g, n + 1) == Covered(g, n) + head;
  }

  lemma UnionSize(a: set<nat>, b: set<nat>)
    requires a !! b
    ensures |a + b| == |a| + |b|
  {
  }

  lemma {:induction false} TotalOfFits(w: seq<int>, g: Group, n: nat, k: nat)
    requires WellFormed(g, |w|) && n <= |g.children|
    requires forall i :: 0 <= i < |g.children| ==> Total(w, g.children[i]) <= k * |g.children[i].mask|
    ensures TotalOf(w, g, n) <= k * Heads(g, n)
    decreases n
  {
    if n > 0 {
      TotalOfFits(w, g, n - 1, k);
      Distribute(k, Heads(g, n - 1), |g.children[|g.children| - n].mask|);
    }
  }

  lemma {:induction false} TotalFits(w: seq<int>, g: Group, k: nat)
    requires WellFormed(g, |w|) && Apart(g)
    requires AtMost(w, g.mask, k)
    ensures Total(w, g) <= k * |g.mask|
    decreases g
  {
    forall i | 0 <= i < |g.children| ensures Total(w, g.children[i]) <= k * |g.children[i].mask| {
      TotalFits(w, g.children[i], k);
    }
    var covered, rest := Covered(g, |g.children|), Rest(g);
    TotalOfFits(w, g, |g.children|, k);
    HeadsCovered(g, |g.children|);
    RestWithin(g.mask, g.children);
    RestUncovered(g.mask, g.children);
    CoveredIs(g, |g.children|);
    SumFits(w, rest, k);
    PartsFit(k, covered, rest, g.mask);
  }

  lemma {:induction false} RestUncovered(mask: set<nat>, groups: seq<Group>)
    ensures forall i :: 0 <= i < |groups| ==> Uncovered(mask, groups) !! groups[i].mask
  {
    if groups != [] {
      RestUncovered(mask, groups[1..]);
      forall i | 0 <= i < |groups| ensures Uncovered(mask, groups) !! groups[i].mask {
        assert i > 0 ==> groups[i] == groups[1..][i - 1];
      }
    }
  }

  // No total overflows if none would with every CPU as loaded as the most loaded one.
  lemma {:induction false} LoadsFit(w: seq<int>, g: Group, k: nat)
    requires WellFormed(g, |w|) && Apart(g)
    requires AtMost(w, g.mask, k)
    requires k < INT_MAX && k * |g.mask| < INT_MAX
    ensures Bounded(w, g)
  {
    forall i | 0 <= i < |g.children| ensures Total(w, g.children[i]) < INT_MAX && Bounded(w, g.children[i]) {
      SubsetSize(g.children[i].mask, g.mask);
      Larger(k, |g.children[i].mask|, |g.mask|);
      TotalFits(w, g.children[i], k);
      LoadsFit(w, g.children[i], k);
    }
  }

  // No load is above k, and k on every CPU of the group would not overflow.
  ghost predicate NoOverflow(s: Cpus, g: Group, k: nat) {
    && Apart(g)
    && (forall c :: c in g.mask ==> c < |s.load| && 0 <= s.load[c] <= k)
    && 256 * k < INT_MAX && 256 * k * |g.mask| < INT_MAX
  }

  lemma LowBounded(s: Cpus, g: Group, k: nat, prefer: nat)
    requires WellFormed(g, |s.load|) && NoOverflow(s, g, k)
    ensures Bounded(LowWeights(s, prefer), g)
  {
    LoadsFit(LowWeights(s, prefer), g, 256 * k);
  }

  lemma HighBounded(s: Cpus, g: Group)
    requires WellFormed(g, |s.load|) && Apart(g) && forall c :: c in g.mask ==> s.load[c] >= 0
    ensures Bounded(HighWeights(s), g)
  {
    LoadsFit(HighWeights(s), g, 0);
  }

  // What the search knows after the last n children and the CPUs of done: the best of them, if any holds
  // an eligible CPU.
  ghost predicate Best(w: seq<int>, e: set<nat>, g: Group, n: nat, done: set<nat>, best: int, cpu: int)
    requires WellFormed(g, |w|) && n <= |g.children| && done <= Rest(g)
  {
    && (forall i :: |g.children| - n <= i < |g.children| && HasEligible(g.children[i], e) ==>
          cpu != -1 && best <= Total(w, g.children[i]))
    && (forall c :: c in done && c in e && c < |w| ==> cpu != -1 && best <= w[c])
    && (cpu == -1 ==> best == INT_MAX)
    && (cpu != -1 ==> FromItem(w, e, g, best, cpu))
  }

  ghost predicate FromItem(w: seq<int>, e: set<nat>, g: Group, best: int, cpu: int)
    requires WellFormed(g, |w|)
  {
    cpu >= 0 &&
    ( || (cpu in Rest(g) && cpu in e && cpu < |w| && best == w[cpu])
      || exists i :: 0 <= i < |g.children| && LeastPath(w, e, g.children[i], cpu) && best == Total(w, g.children[i]))
  }

  // How the search compares an item of weight t, whose eligible CPU is c, with the best so far; a random
  // number decides between equals.
  ghost predicate Takes(t: int, c: int, best: int, cpu: int, best': int, cpu': int) {
    || (best' == t && cpu' == c && c >= 0 && t <= best && t < INT_MAX)
    || (best' == best && cpu' == cpu && (c >= 0 ==> best <= t))
  }

  lemma TakeChild(w: seq<int>, e: set<nat>, g: Group, n: nat, t: int, c: int, best: int, cpu: int, best': int,
                  cpu': int)
    requires WellFormed(g, |w|) && n < |g.children| && Best(w, e, g, n, {}, best, cpu)
    requires var child := g.children[|g.children| - n - 1];
      && t == Total(w, child) && t < INT_MAX
      && (c == -1 <==> !HasEligible(child, e))
      && (c != -1 ==> c >= 0 && LeastPath(w, e, child, c))
    requires Takes(t, c, best, cpu, best', cpu')
    ensures Best(w, e, g, n + 1, {}, best', cpu')
  {
    assert cpu' != -1 ==> FromItem(w, e, g, best', cpu');
  }

  lemma TakeCpu(w: seq<int>, e: set<nat>, g: Group, done: set<nat>, c: nat, best: int, cpu: int, best': int, cpu': int)
    requires WellFormed(g, |w|) && done <= Rest(g) && c in Rest(g) && c < |w| && w[c] < INT_MAX
    requires Best(w, e, g, |g.children|, done, best, cpu)
    requires Takes(w[c], if c in e then c else -1, best, cpu, best', cpu')
    ensures Best(w, e, g, |g.children|, done + {c}, best', cpu')
  {
    assert cpu' != -1 ==> FromItem(w, e, g, best', cpu');
  }

  // What is best of all is on a least path.
  lemma BestOfAll(w: seq<int>, e: set<nat>, g: Group, best: int, cpu: int)
    requires WellFormed(g, |w|) && Best(w, e, g, |g.children|, Rest(g), best, cpu)
    ensures cpu == -1 <==> !HasEligible(g, e)
    ensures cpu != -1 ==> cpu >= 0 && LeastPath(w, e, g, cpu)
  {
    RestWithin(g.mask, g.children);
    if cpu == -1 {
      forall c | c in g.mask ensures c !in e {
        if c !in Rest(g) {
          var i :| 0 <= i < |g.children| && c in g.children[i].mask;
          assert !HasEligible(g.children[i], e);
        }
      }
    } else {
      assert Least(w, e, g, best);
      LeastPathEligible(w, e, g, cpu);
    }
  }

  // cpu_search_lowest.  It takes the CPUs in either of the source's two orders, and the random numbers
  // that break ties are arbitrary; stale is what cs_load holds on entry.
  method CpuSearchLowest(g: Group, s: Cpus, q: Low, stale: int, ghost w: seq<int>, ghost e: set<nat>)
    returns (total: int, cpu: int, load: int)
    requires s.Ok() && w == LowWeights(s, q.prefer) && WellFormed(g, |w|) && Bounded(w, g)
    requires forall c :: c in g.mask ==> (c in e <==> LowOk(s, q, c))
    ensures total == Total(w, g)
    ensures cpu == -1 <==> !HasEligible(g, e)
    ensures cpu != -1 ==> cpu >= 0 && LeastPath(w, e, g, cpu)
    decreases g, 1
  {
    RestWithin(g.mask, g.children);
    var lload, gload, cpumask;
    total, cpu, load, lload, gload, cpumask := LowestChild(g, s, q, stale, w, e);
    while cpumask != {}
      invariant cpumask <= Rest(g)
      invariant total == TotalOf(w, g, |g.children|) + Sum(w, Rest(g)) - Sum(w, cpumask)
      invariant Best(w, e, g, |g.children|, Rest(g) - cpumask, lload, cpu)
    {
      var c :| c in cpumask;
      SumSplit(w, cpumask, c);
      cpumask := cpumask - {c};
      ghost var done, best, was := Rest(g) - cpumask - {c}, lload, cpu;
      var rnd: nat := *;
      var t := s.load[c] * 256;
      if c == q.prefer {
        t := t - 64;
      }
      total := total + t;
      if s.lowpri[c] > q.pri && s.load[c] <= q.limit && c in q.mask {
        gload := t - rnd % 32;
        if t < lload || (t == lload && gload < load) {
          lload, cpu, load := t, c, gload;
        }
      }
      assert done + {c} == Rest(g) - cpumask;
      TakeCpu(w, e, g, done, c, best, was, lload, cpu);
    }
    BestOfAll(w, e, g, lload, cpu);
  }

  // Its passes over the child groups, from the last to the first.
  method LowestChild(g: Group, s: Cpus, q: Low, stale: int, ghost w: seq<int>, ghost e: set<nat>)
    returns (total: int, cpu: int, load: int, lload: int, gload: int, cpumask: set<nat>)
    requires s.Ok() && w == LowWeights(s, q.prefer) && WellFormed(g, |w|) && Bounded(w, g)
    requires forall c :: c in g.mask ==> (c in e <==> LowOk(s, q, c))
    ensures total == TotalOf(w, g, |g.children|) && cpumask == Rest(g)
    ensures Best(w, e, g, |g.children|, {}, lload, cpu)
    decreases g, 0
  {
    total, cpu, load, lload, gload, cpumask := 0, -1, stale, INT_MAX, stale, g.mask;
    var i: nat := |g.children|;
    while i > 0
      invariant i <= |g.children| && cpumask == Uncovered(g.mask, g.children[i..])
      invariant total == TotalOf(w, g, |g.children| - i)
      invariant Best(w, e, g, |g.children| - i, {}, lload, cpu)
    {
      i := i - 1;
      var child := g.children[i];
      assert g.children[i..][1..] == g.children[i + 1..];
      cpumask := cpumask - child.mask;
      var t, c;
      t, c, gload := CpuSearchLowest(child, s, q, gload, w, e);
      total := total + t;
      ghost var best, was := lload, cpu;
      if c >= 0 && (t < lload || (t == lload && gload < load)) {
        lload, cpu, load := t, c, gload;
      }
      TakeChild(w, e, g, |g.children| - i - 1, t, c, best, was, lload, cpu);
    }
    assert g.children[0..] == g.children;
  }

  ghost function Negated(hload: int, cpu: int): int {
    if cpu == -1 then INT_MAX else -hload
  }

  // cpu_search_highest, on the weights with the opposite sign.
  method CpuSearchHighest(g: Group, s: Cpus, q: High, stale: int, ghost w: seq<int>, ghost e: set<nat>)
    returns (total: int, cpu: int, load: int)
    requires s.Ok() && w == HighWeights(s) && WellFormed(g, |w|) && Bounded(w, g)
    requires forall c :: c in g.mask ==> (c in e <==> HighOk(s, q, c))
    ensures total == -Total(w, g)
    ensures cpu == -1 <==> !HasEligible(g, e)
    ensures cpu != -1 ==> cpu >= 0 && LeastPath(w, e, g, cpu)
    decreases g, 1
  {
    RestWithin(g.mask, g.children);
    var hload, gload, cpumask;
    total, cpu, load, hload, gload, cpumask := HighestChild(g, s, q, stale, w, e);
    while cpumask != {}
      invariant cpumask <= Rest(g)
      invariant total == -(TotalOf(w, g, |g.children|) + Sum(w, Rest(g)) - Sum(w, cpumask))
      invariant Best(w, e, g, |g.children|, Rest(g) - cpumask, Negated(hload, cpu), cpu)
      invariant cpu == -1 ==> hload == INT_MIN
    {
      var c :| c in cpumask;
      SumSplit(w, cpumask, c);
      cpumask := cpumask - {c};
      ghost var done, best, was := Rest(g) - cpumask - {c}, Negated(hload, cpu), cpu;
      var rnd: nat := *;
      var t := s.load[c] * 256;
      total := total + t;
      if s.load[c] >= q.limit && s.transferable[c] != 0 && c in q.mask {
        gload := t - rnd % 32;
        if t > hload || (t == hload && gload > load) {
          hload, cpu, load := t, c, gload;
        }
      }
      assert done + {c} == Rest(g) - cpumask;
      TakeCpu(w, e, g, done, c, best, was, Negated(hload, cpu), cpu);
    }
    BestOfAll(w, e, g, Negated(hload, cpu), cpu);
  }

  method HighestChild(g: Group, s: Cpus, q: High, stale: int, ghost w: seq<int>, ghost e: set<nat>)
    returns (total: int, cpu: int, load: int, hload: int, gload: int, cpumask: set<nat>)
    requires s.Ok() && w == HighWeights(s) && WellFormed(g, |w|) && Bounded(w, g)
    requires forall c :: c in g.mask ==> (c in e <==> HighOk(s, q, c))
    ensures total == -TotalOf(w, g, |g.children|) && cpumask == Rest(g)
    ensures Best(w, e, g, |g.children|, {}, Negated(hload, cpu), cpu)
    ensures cpu == -1 ==> hload == INT_MIN
    decreases g, 0
  {
    total, cpu, load, hload, gload, cpumask := 0, -1, stale, INT_MIN, stale, g.mask;
    var i: nat := |g.children|;
    while i > 0
      invariant i <= |g.children| && cpumask == Uncovered(g.mask, g.children[i..])
      invariant total == -TotalOf(w, g, |g.children| - i)
      invariant Best(w, e, g, |g.children| - i, {}, Negated(hload, cpu), cpu)
      invariant cpu == -1 ==> hload == INT_MIN
    {
      i := i - 1;
      var child := g.children[i];
      assert g.children[i..][1..] == g.children[i + 1..];
      cpumask := cpumask - child.mask;
      var t, c;
      t, c, gload := CpuSearchHighest(child, s, q, gload, w, e);
      assert TotalOf(w, g, |g.children| - i) == TotalOf(w, g, |g.children| - i - 1) + Total(w, child);
      total := total + t;
      ghost var best, was := Negated(hload, cpu), cpu;
      if c >= 0 && (t > hload || (t == hload && gload > load)) {
        hload, cpu, load := t, c, gload;
      }
      TakeChild(w, e, g, |g.children| - i - 1, -t, c, best, was, Negated(hload, cpu), cpu);
    }
    assert g.children[0..] == g.children;
  }

  // sched_lowest: an eligible CPU on a least path, and -1 only if the tree has no eligible CPU.
  method SchedLowest(g: Group, s: Cpus, q: Low, ghost k: nat) returns (cpu: int)
    requires s.Ok() && WellFormed(g, |s.load|) && NoOverflow(s, g, k)
    ensures cpu == -1 <==>
      !exists c :: c in g.mask && c in q.mask && c < |s.load| && s.lowpri[c] > q.pri && s.load[c] <= q.limit
    ensures cpu != -1 ==> cpu >= 0 && cpu in g.mask && cpu in q.mask && s.lowpri[cpu] > q.pri && s.load[cpu] <= q.limit
    ensures cpu != -1 ==> LeastPath(LowWeights(s, q.prefer), LowSet(g, s, q), g, cpu)
  {
    ghost var e := LowSet(g, s, q);
    LowBounded(s, g, k, q.prefer);
    var stale: int := *;
    var total, load;
    total, cpu, load := CpuSearchLowest(g, s, q, stale, LowWeights(s, q.prefer), e);
    if cpu != -1 {
      LeastPathEligible(LowWeights(s, q.prefer), e, g, cpu);
    }
  }

  // sched_highest
  method SchedHighest(g: Group, s: Cpus, q: High) returns (cpu: int)
    requires s.Ok() && WellFormed(g, |s.load|) && Apart(g) && forall c :: c in g.mask ==> s.load[c] >= 0
    ensures cpu == -1 <==>
      !exists c :: c in g.mask && c in q.mask && c < |s.load| && s.load[c] >= q.limit && s.transferable[c] != 0
    ensures cpu != -1 ==>
      cpu >= 0 && cpu in g.mask && cpu in q.mask && s.load[cpu] >= q.limit && s.transferable[cpu] != 0
    ensures cpu != -1 ==> LeastPath(HighWeights(s), HighSet(g, s, q), g, cpu)
  {
    ghost var e := HighSet(g, s, q);
    HighBounded(s, g);
    var stale: int := *;
    var total, load;
    total, cpu, load := CpuSearchHighest(g, s, q, stale, HighWeights(s), e);
    if cpu != -1 {
      LeastPathEligible(HighWeights(s), e, g, cpu);
    }
  }

  // In loads: on a machine without nested groups sched_lowest finds a CPU no eligible one is less loaded
  // than, the preferred one among equals, and sched_highest one no eligible one is more loaded than.

  lemma FlatLowest(g: Group, s: Cpus, q: Low, cpu: nat)
    requires s.Ok() && WellFormed(g, |s.load|) && g.children == []
    requires cpu in LowSet(g, s, q) && LeastPath(LowWeights(s, q.prefer), LowSet(g, s, q), g, cpu)
    ensures forall c :: c in LowSet(g, s, q) ==> s.load[cpu] <= s.load[c]
    ensures q.prefer in LowSet(g, s, q) && s.load[q.prefer] == s.load[cpu] ==> cpu == q.prefer
  {
    var w, e := LowWeights(s, q.prefer), LowSet(g, s, q);
    FlatLeast(w, e, g, cpu);
    forall c | c in e ensures s.load[cpu] <= s.load[c] {
      assert w[cpu] <= w[c];
    }
    assert q.prefer in e ==> w[cpu] <= w[q.prefer];
  }

  lemma FlatHighest(g: Group, s: Cpus, q: High, cpu: nat)
    requires s.Ok() && WellFormed(g, |s.load|) && g.children == []
    requires cpu in HighSet(g, s, q) && LeastPath(HighWeights(s), HighSet(g, s, q), g, cpu)
    ensures forall c :: c in HighSet(g, s, q) ==> s.load[cpu] >= s.load[c]
  {
    var w, e := HighWeights(s), HighSet(g, s, q);
    FlatLeast(w, e, g, cpu);
    forall c | c in e ensures s.load[cpu] >= s.load[c] {
      assert w[cpu] <= w[c];
    }
  }

  // The thread sched_pickcpu places: its cpuset, priority and last CPU, and whether it must stay there.
  datatype Request = Request(allowed: set<nat>, pri: nat, cpu: nat, stays: bool)

  // The last CPU, after the preference for the CPU that takes the interrupt.
  function LastCpu(r: Request, self: nat, intr: bool): nat {
    if intr && self in r.allowed then self else r.cpu
  }

  // What the three searches find: the cache group, else the machine, for a CPU the thread could run on at
  // once, else any allowed CPU.
  ghost predicate Found(r: Request, last: nat, cache: Option<Group>, top: Group, s: Cpus, maxTimeshare: nat, cpu: nat)
    requires s.Ok() && WellFormed(top, |s.load|) && (cache.Some? ==> WellFormed(cache.value, |s.load|))
  {
    var w := LowWeights(s, last);
    var near := Low(r.allowed, last, if r.pri > maxTimeshare then r.pri else maxTimeshare, INT_MAX);
    var now, any := Low(r.allowed, last, r.pri, INT_MAX), Low(r.allowed, last, -1, INT_MAX);
    if cache.Some? && LowSet(cache.value, s, near) != {} then
      cpu in LowSet(cache.value, s, near) && LeastPath(w, LowSet(cache.value, s, near), cache.value, cpu)
    else if LowSet(top, s, now) != {} then cpu in LowSet(top, s, now) && LeastPath(w, LowSet(top, s, now), top, cpu)
    else cpu in LowSet(top, s, any) && LeastPath(w, LowSet(top, s, any), top, cpu)
  }

  // The choice of sched_pickcpu, and its reason: the thread must stay, the interrupt CPU can run it at
  // once, its last CPU is idle and it has affinity to it, or the searches found a CPU, unless this one is
  // no worse.
  ghost predicate Picked(r: Request, self: nat, intr: bool, affine: bool, cache: Option<Group>, top: Group, s: Cpus,
                         minIdle: nat, maxTimeshare: nat, cpu: nat)
    requires s.Ok() && self < |s.load| && r.cpu < |s.load|
    requires WellFormed(top, |s.load|) && (cache.Some? ==> WellFormed(cache.value, |s.load|))
  {
    var last := LastCpu(r, self, intr);
    if r.stays then cpu == r.cpu
    else if last != r.cpu && s.lowpri[self] > r.pri then cpu == self
    else if last in r.allowed && s.lowpri[last] >= minIdle && affine then cpu == last
    else
      exists found: nat ::
        && found < |s.load| && Found(r, last, cache, top, s, maxTimeshare, found)
        && cpu ==
           if self in r.allowed && s.lowpri[self] > r.pri
             && s.lowpri[found] < minIdle && s.load[self] <= s.load[found] + 1
           then self else found
  }

  // sched_pickcpu, started SMP.  The outcomes of the affinity and interrupt tests are parameters, and so
  // is the cache group they select, if that is not the whole machine.
  method SchedPickcpu(r: Request, self: nat, intr: bool, affine: bool, cache: Option<Group>, top: Group, s: Cpus,
                      minIdle: nat, maxTimeshare: nat, ghost k: nat)
    returns (cpu: int)
    requires s.Ok() && self < |s.load| && r.cpu < |s.load|
    requires WellFormed(top, |s.load|) && NoOverflow(s, top, k)
    requires cache.Some? ==> WellFormed(cache.value, |s.load|) && NoOverflow(s, cache.value, k)
    requires exists c :: c in top.mask && c in r.allowed
    ensures cpu >= 0 && Picked(r, self, intr, affine, cache, top, s, minIdle, maxTimeshare, cpu)
    ensures !r.stays ==> cpu in r.allowed
    ensures !r.stays && cpu != LastCpu(r, self, intr) && cpu != self ==>
      Found(r, LastCpu(r, self, intr), cache, top, s, maxTimeshare, cpu)
  {
    if r.stays {
      return r.cpu;
    }
    var last := r.cpu;
    if intr && self in r.allowed && last != self {
      last := self;
      if s.lowpri[self] > r.pri {
        return last;
      }
    }
    if last in r.allowed && s.lowpri[last] >= minIdle && affine {
      return last;
    }
    cpu := SearchAll(r, last, cache, top, s, maxTimeshare, k);
    if self in r.allowed && s.lowpri[self] > r.pri && s.lowpri[cpu] < minIdle && s.load[self] <= s.load[cpu] + 1 {
      cpu := self;
    }
  }

  method SearchAll(r: Request, last: nat, cache: Option<Group>, top: Group, s: Cpus, maxTimeshare: nat, ghost k: nat)
    returns (cpu: int)
    requires s.Ok() && WellFormed(top, |s.load|) && NoOverflow(s, top, k)
    requires cache.Some? ==> WellFormed(cache.value, |s.load|) && NoOverflow(s, cache.value, k)
    requires exists c :: c in top.mask && c in r.allowed
    ensures 0 <= cpu < |s.load| && cpu in r.allowed && Found(r, last, cache, top, s, maxTimeshare, cpu)
  {
    cpu := -1;
    if cache.Some? {
      var pri := if r.pri > maxTimeshare then r.pri else maxTimeshare;
      cpu := SchedLowest(cache.value, s, Low(r.allowed, last, pri, INT_MAX), k);
    }
    if cpu == -1 {
      cpu := SchedLowest(top, s, Low(r.allowed, last, r.pri, INT_MAX), k);
      if cpu == -1 {
        ghost var c :| c in top.mask && c in r.allowed;
        assert c in LowSet(top, s, Low(r.allowed, last, -1, INT_MAX));
        cpu := SchedLowest(top, s, Low(r.allowed, last, -1, INT_MAX), k);
      }
    }
  }
}
