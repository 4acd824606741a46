/** vm_pageout_cluster: which neighbours of a dirty page are laundered together with it. */
module Cluster {
  import Arith

  // The pages of an object, by index: the eligible ones are resident, not busy, dirty, not held, and in
  // the laundry.  size is the object's size.
  datatype Object = Object(eligible: set<nat>, size: nat)

  // How many eligible pages lie directly below p, and directly above it within the object.

  function Below(o: Object, p: nat): (n: nat)
    ensures n <= p
  {
    if p == 0 || p - 1 !in o.eligible then 0 else 1 + Below(o, p - 1)
  }

  function Above(o: Object, p: nat): nat
    decreases o.size - p
  {
    if p + 1 >= o.size || p + 1 !in o.eligible then 0 else 1 + Above(o, p + 1)
  }

  lemma {:induction false} BelowIs(o: Object, p: nat, n: nat)
    requires n <= Below(o, p)
    ensures Below(o, p - n) == Below(o, p) - n
    ensures forall i :: p - n <= i < p ==> i in o.eligible
  {
    if n > 0 {
      BelowIs(o, p - 1, n - 1);
    }
  }

  lemma {:induction false} AboveIs(o: Object, p: nat, n: nat)
    requires n <= Above(o, p)
    ensures Above(o, p + n) == Above(o, p) - n
    ensures forall i :: p < i <= p + n ==> i in o.eligible && i < o.size
    decreases n
  {
    if n > 0 {
      AboveIs(o, p + 1, n - 1);
      forall i | p < i <= p + n ensures i in o.eligible && i < o.size {
        assert i == p + 1 || p + 1 < i <= (p + 1) + (n - 1);
      }
    }
  }

  function Min(a: int, b: int): int {
    if a < b then a else b
  }

  // The steps down from p to a multiple of n, at least one.
  function ToBoundary(p: nat, n: nat): nat
    requires n > 0
  {
    if p % n == 0 then n else p % n
  }

  // Whether the page j steps below p starts a block of n.
  predicate OnBoundary(p: nat, n: nat, j: int)
    requires n > 0
  {
    (p - j) % n == 0
  }

  // What the cluster is: first back to an alignment boundary, then forward, then back with what is left
  // of the n pages.

  function FirstBack(o: Object, p: nat, n: nat): int
    requires n > 0
  {
    Min(Min(Below(o, p), ToBoundary(p, n)), n - 1)
  }

  function Ahead(o: Object, p: nat, n: nat): int
    requires n > 0
  {
    Min(Above(o, p), n - 1 - FirstBack(o, p, n))
  }

  function Back(o: Object, p: nat, n: nat): int
    requires n > 0
  {
    Min(Below(o, p), n - 1 - Ahead(o, p, n))
  }

  // The cluster is a window of at most n pages around p, all others eligible, and if it is shorter no page
  // next to it is.
  lemma WindowIsMaximal(o: Object, p: nat, n: nat)
    requires n > 0
    ensures var lo, hi := p - Back(o, p, n), p + Ahead(o, p, n) + 1;
      && 0 <= lo <= p < hi && hi - lo <= n
      && (forall i :: lo <= i < hi && i != p ==> i in o.eligible)
      && (hi - lo < n ==> (lo == 0 || lo - 1 !in o.eligible) && (hi >= o.size || hi !in o.eligible))
  {
    BelowIs(o, p, Back(o, p, n));
    AboveIs(o, p, Ahead(o, p, n));
  }

  // An aligned block that is eligible around p is the cluster exactly when p is not the first page of the
  // block, or the page before it is not eligible, or blocks are single pages.
  lemma AlignedBlock(o: Object, p: nat, n: nat)
    requires n > 0
    requires forall i :: p - p % n <= i < p - p % n + n && i != p ==> i in o.eligible
    requires p - p % n + n <= o.size
    ensures (p - Back(o, p, n) == p - p % n && Ahead(o, p, n) == n - 1 - p % n)
      <==> (p % n != 0 || p == 0 || p - 1 !in o.eligible || n == 1)
  {
    BelowAtLeast(o, p, p % n);
    AboveAtLeast(o, p, n - 1 - p % n);
  }

  // Page 4 starts an eligible block of four, but page 3 is eligible too: the cluster is 3 to 6.
  lemma BlockMissed()
    ensures var o := Object({3, 5, 6, 7}, 8); 4 - Back(o, 4, 4) == 3 && Ahead(o, 4, 4) == 2
  {
    var o := Object({3, 5, 6, 7}, 8);
    assert Below(o, 3) == 0 && Below(o, 4) == 1;
    assert Above(o, 7) == 0 && Above(o, 6) == 1 && Above(o, 5) == 2 && Above(o, 4) == 3;
  }

  lemma {:induction false} BelowAtLeast(o: Object, p: nat, n: nat)
    requires n <= p && forall i :: p - n <= i < p ==> i in o.eligible
    ensures Below(o, p) >= n
  {
    if n > 0 {
      BelowAtLeast(o, p - 1, n - 1);
    }
  }

  lemma {:induction false} AboveAtLeast(o: Object, p: nat, n: nat)
    requires p + n < o.size && forall i :: p < i <= p + n ==> i in o.eligible
    ensures Above(o, p) >= n
    decreases n
  {
    if n > 0 {
      AboveAtLeast(o, p + 1, n - 1);
    }
  }

  // Indices of the pages in mc, from page_base on.
  ghost predicate Filled(mc: seq<nat>, p: nat, n: nat, back: nat, ahead: nat) {
    && |mc| == 2 * n && back < n && ahead < n && back <= p
    && forall k {:trigger mc[k]} :: n - back <= k <= n + ahead ==> mc[k] == p + k - n
  }

  // The reverse scan: up to n pages, to a page that is not eligible (ib becomes 0), or to a boundary.
  method ScanBack(o: Object, p: nat, n: nat, mc: array<nat>, base: nat, count: nat, ib: nat, ghost ahead: nat)
    returns (base': nat, count': nat, ib': nat)
    requires n > 0 && base <= n && ib == n - base + 1 && count == 1 + (n - base) + ahead && count <= n
    requires Filled(mc[..], p, n, n - base, ahead) && n - base <= Below(o, p)
    modifies mc
    ensures base' <= base && Filled(mc[..], p, n, n - base', ahead)
    ensures count' == 1 + (n - base') + ahead && count' <= n && n - base' <= Below(o, p)
    ensures ib' == 0 || ib' == n - base' + 1
    ensures ib' == 0 ==> n - base' == Below(o, p)
    ensures ib' != 0 && count' < n ==> base' < base && OnBoundary(p, n, n - base')
    ensures forall j :: n - base < j < n - base' ==> !OnBoundary(p, n, j)
  {
    base', count', ib' := base, count, ib;
    while ib' != 0 && count' < n
      invariant base' <= base && Filled(mc[..], p, n, n - base', ahead)
      invariant count' == 1 + (n - base') + ahead && count' <= n && n - base' <= Below(o, p)
      invariant ib' == 0 || ib' == n - base' + 1
      invariant ib' == 0 ==> n - base' == Below(o, p)
      invariant forall j :: n - base < j <= n - base' ==> !OnBoundary(p, n, j)
      decreases ib' != 0, n - count'
    {
      BelowIs(o, p, n - base');
      if ib' > p || p - ib' !in o.eligible {
        ib' := 0;
        break;
      }
      base' := base' - 1;
      mc[base'] := p - ib';
      count' := count' + 1;
      ib' := ib' + 1;
      if OnBoundary(p, n, ib' - 1) {
        break;
      }
    }
  }

  // The forward scan: up to n pages, or to a page that is not eligible.
  method ScanAhead(o: Object, p: nat, n: nat, mc: array<nat>, base: nat, count: nat, next: nat)
    returns (count': nat, next': nat)
    requires n > 0 && base <= n && next > 0 && count == n - base + next && count <= n
    requires Filled(mc[..], p, n, n - base, next - 1) && next - 1 <= Above(o, p)
    modifies mc
    ensures next' >= next && Filled(mc[..], p, n, n - base, next' - 1) && count' == n - base + next' && count' <= n
    ensures next' - 1 <= Above(o, p) && (count' < n ==> next' - 1 == Above(o, p))
  {
    count', next' := count, next;
    while count' < n && p + next' < o.size
      invariant next' >= next && Filled(mc[..], p, n, n - base, next' - 1) && count' == n - base + next' && count' <= n
      invariant next' - 1 <= Above(o, p)
    {
      AboveIs(o, p, next' - 1);
      if p + next' !in o.eligible {
        break;
      }
      mc[base + count'] := p + next';
      count' := count' + 1;
      next' := next' + 1;
    }
    AboveIs(o, p, next' - 1);
  }

  lemma {:induction false} StepsToBoundary(p: nat, n: nat, j: nat)
    requires n > 0 && 0 < j <= ToBoundary(p, n) && j <= p
    ensures OnBoundary(p, n, j) <==> j == ToBoundary(p, n)
  {
    var q := p / n;
    if p % n == 0 {
      assert p - j == n * (q - 1) + (n - j);
      ModOf(q - 1, n - j, n);
    } else {
      assert p - j == n * q + (p % n - j);
      ModOf(q, p % n - j, n);
    }
  }

  lemma ModOf(q: int, r: nat, n: nat)
    requires r < n
    ensures (n * q + r) % n == r
  {
    var x := n * q + r;
    Arith.DivRange(x, n);
    Arith.LtMul(q, x / n + 1, n);
    Arith.LtMul(x / n, q + 1, n);
  }

  // Where the first reverse scan stops.
  lemma FirstStop(o: Object, p: nat, n: nat, back: nat)
    requires n > 0 && back <= Below(o, p) && back < n
    requires forall j :: 0 < j < back ==> !OnBoundary(p, n, j)
    requires back == Below(o, p) || back == n - 1 || (back > 0 && OnBoundary(p, n, back))
    ensures back == FirstBack(o, p, n)
  {
    var d := ToBoundary(p, n);
    if d < back {
      StepsToBoundary(p, n, d);
    } else if back > 0 {
      StepsToBoundary(p, n, back);
    }
  }

  // vm_pageout_cluster: the pages it flushes, mc[base..base + count], are those of the window.
  method PageoutCluster(o: Object, p: nat, n: nat) returns (mc: array<nat>, base: nat, count: nat)
    requires n > 0
    ensures base + count <= mc.Length && count == 1 + Back(o, p, n) + Ahead(o, p, n)
    ensures forall k {:trigger mc[base + k]} :: 0 <= k < count ==> mc[base + k] == p - Back(o, p, n) + k
  {
    mc := new nat[2 * n];
    mc[n] := p;
    base, count := n, 1;
    var ib: nat, next: nat := 1, 1;
    ghost var first := true;
    while true
      invariant base <= n && Filled(mc[..], p, n, n - base, next - 1)
      invariant ib == n - base + 1 && next > 0 && count == n - base + next
      invariant n - base <= Below(o, p) && next - 1 <= Above(o, p)
      invariant first ==> base == n && count == 1
      invariant !first ==> count < n && next - 1 == Above(o, p) == Ahead(o, p, n)
      decreases n - count, first
    {
      base, count, ib := ScanBack(o, p, n, mc, base, count, ib, next - 1);
      if first {
        FirstStop(o, p, n, n - base);
      }
      count, next := ScanAhead(o, p, n, mc, base, count, next);
      first := false;
      if ib == 0 || count == n {
        break;
      }
    }
  }
}
