/** The scan of a domain's inactive queue: pages leave it in batches and come back in batches. */
module InactiveScan {
  import opened Queues
  import Oom

  const BATCH: nat := 7    // VM_BATCHQUEUE_SIZE

  datatype PageQueue = PqNone | PqInactive | PqActive | PqLaundry

  // The tests the scan makes on a page: PGA_DEQUEUE, held, wired and busy, no valid content,
  // object->ref_count != 0, pmap_ts_referenced, PGA_REFERENCED, OBJ_DEAD, and dirty after the pmap is asked.
  datatype Tests = Tests(dequeue: bool, held: bool, wired: bool, busy: bool, invalid: bool, mapped: bool, refs: nat,
                         referenced: bool, dead: bool, dirty: bool)
  {
    function Delta(): nat {
      (if mapped then refs else 0) + (if referenced then 1 else 0)
    }
  }

  // m->queue, PGA_ENQUEUED, PGA_REQUEUE and PGA_REQUEUE_HEAD, and what the tests answer.
  datatype Page = Page(queue: PageQueue, enqueued: bool, requeue: bool, requeueHead: bool, t: Tests)
  {
    // vm_page_queue
    function Logical(): PageQueue {
      if t.dequeue then PqNone else queue
    }

    predicate Flagged() {
      enqueued || requeue || requeueHead
    }
  }

  // Again: a page with a pending queue operation, which gets a second chance.
  datatype Verdict = Gone | Stuck | Again | Deferred | Freed | Activated | Requeued | Laundered | Owners

  // What the scan does with an unflagged page of the inactive queue, from what the tests answer.
  function Judge(t: Tests): Verdict {
    if t.dequeue then Gone
    else if t.held then Stuck
    else if t.wired then Deferred
    else if t.busy then Stuck
    else if t.invalid then Freed
    else if t.Delta() != 0 && t.mapped then Activated
    else if t.Delta() != 0 && !t.dead then Requeued
    else if !t.dirty then Freed
    else if !t.dead then Laundered
    else Owners
  }

  // The page is in the queue and nobody uses it.
  predicate Idle(t: Tests) {
    !t.dequeue && !t.held && !t.wired && !t.busy
  }

  // A reference has been counted: one in the pmap of a mapped page, or PGA_REFERENCED.
  predicate Referenced(t: Tests) {
    (t.mapped && t.refs > 0) || t.referenced
  }

  // When each verdict is due on an unflagged page, from the tests alone.
  predicate Due(t: Tests, v: Verdict) {
    match v
    case Gone => t.dequeue
    case Stuck => !t.dequeue && (t.held || (!t.wired && t.busy))
    case Again => false
    case Deferred => !t.dequeue && !t.held && t.wired
    case Freed => Idle(t) && (t.invalid || (!t.dirty && !(Referenced(t) && (t.mapped || !t.dead))))
    case Activated => Idle(t) && !t.invalid && t.mapped && (t.refs > 0 || t.referenced)
    case Requeued => Idle(t) && !t.invalid && !t.mapped && t.referenced && !t.dead
    case Laundered => Idle(t) && !t.invalid && t.dirty && !t.dead && !Referenced(t)
    case Owners => Idle(t) && !t.invalid && t.dirty && t.dead && !(t.mapped && Referenced(t))
  }

  // Exactly one verdict is due, and it is the one the scan comes to.
  lemma OneIsDue(t: Tests, v: Verdict)
    ensures Due(t, v) <==> v == Judge(t)
  {
  }

  // What is freed has no user, and either holds nothing or can be read again and has not been used since.
  lemma FreedIsSafe(t: Tests)
    ensures Judge(t) == Freed <==>
      && !t.dequeue && !t.held && !t.wired && !t.busy
      && (t.invalid || (!t.dirty && (t.Delta() == 0 || (!t.mapped && t.dead))))
  {
  }

  // Stuck and requeued pages, and those with a second chance, go back into the list.
  predicate Leaves(v: Verdict) {
    v != Stuck && v != Again && v != Requeued
  }

  // How a page that has left the list is left behind.
  predicate AtRest(p: Page, v: Verdict) {
    match v
    case Freed => p.queue == PqNone && !p.Flagged()
    case Activated => p.queue == PqActive
    case Laundered => p.queue == PqLaundry
    case Deferred => p.Logical() == PqNone && !p.enqueued
    case Gone => p.Logical() == PqNone && !p.enqueued
    case Owners => p.queue == PqInactive && !p.enqueued && p.t.dead
    case _ => false
  }

  // The body of the scan for one page: its verdict, and its new state.
  method Examine(p0: Page) returns (v: Verdict, p: Page)
    requires IsLoose(p0)
    ensures v == Again <==> p0.Flagged() && !p0.t.dequeue
    ensures v != Again ==> Due(p0.t, v)
    ensures Leaves(v) ==> AtRest(p, v)
    ensures !Leaves(v) ==> IsLoose(p)
    ensures v == Stuck || v == Again ==> p == p0
    ensures v == Requeued ==> p == p0.(requeue := true, t := p0.t.(referenced := false))
  {
    p := p0;
    if p.Logical() != PqInactive {
      return Gone, p;
    }
    if p.Flagged() {
      return Again, p;
    }
    if p.t.held {
      return Stuck, p;
    }
    if p.t.wired {
      return Deferred, p.(t := p.t.(dequeue := true));
    }
    if p.t.busy {
      return Stuck, p;
    }
    if !p.t.invalid {
      var delta := if p.t.mapped then p.t.refs else 0;
      if p.t.referenced {
        p := p.(t := p.t.(referenced := false));
        delta := delta + 1;
      }
      if delta != 0 {
        if p.t.mapped {
          return Activated, p.(queue := PqActive);
        } else if !p.t.dead {
          return Requeued, p.(requeue := true);
        }
      }
      if p.t.dirty {
        if !p.t.dead {
          return Laundered, p.(queue := PqLaundry);
        }
        return Owners, p;
      }
    }
    return Freed, p.(queue := PqNone);
  }

  predicate IsLoose(p: Page) {
    p.queue == PqInactive && !p.enqueued
  }

  function Elems(q: seq<nat>): set<nat> {
    set x | x in q
  }

  // The pages, as opposed to markers, of a list.
  function Pages(pl: seq<nat>, markers: set<nat>): set<nat> {
    Elems(pl) - markers
  }

  // pq_cnt of a list: its entries that are not markers.
  function Count(l: seq<nat>, markers: set<nat>): nat {
    if l == [] then 0 else (if l[0] in markers then 0 else 1) + Count(l[1..], markers)
  }

  // How many entries of the list lie behind x, where the scan goes on.
  function Behind(l: seq<nat>, x: nat): int {
    if x in l then |l| - 1 - IndexOf(l, x) else 0
  }

  // How many of them are markers.
  function MarksBehind(l: seq<nat>, x: nat, markers: set<nat>): int {
    if x in l then MarksIn(l[IndexOf(l, x) + 1..], markers) else 0
  }

  function MarksIn(l: seq<nat>, markers: set<nat>): int {
    |l| - Count(l, markers)
  }

  lemma IndexUnique(l: seq<nat>, i: nat)
    requires NoDup(l) && i < |l|
    ensures IndexOf(l, l[i]) == i
  {
    assert l[IndexOf(l, l[i])] == l[i];
  }

  // An entry put in anywhere leaves at least as many behind x.
  lemma InsertBehind(l: seq<nat>, i: nat, m: nat, x: nat)
    requires i <= |l| && NoDup(InsertAt(l, i, m)) && x in l
    ensures x in InsertAt(l, i, m) && Behind(InsertAt(l, i, m), x) >= Behind(l, x)
  {
    var l', j := InsertAt(l, i, m), IndexOf(l, x);
    var j' := if j < i then j else j + 1;
    assert l'[j'] == l[j];
    IndexUnique(l', j');
  }

  lemma InsertSuffix(l: seq<nat>, i: nat, m: nat, k: nat)
    requires k <= i <= |l|
    ensures InsertAt(l, i, m)[k..] == InsertAt(l[k..], i - k, m)
  {
    assert l[k..][..i - k] == l[k..i];
    assert l[k..][i - k..] == l[i..];
    assert l[..i] == l[..k] + l[k..i];
    assert InsertAt(l, i, m) == l[..k] + (l[k..i] + [m] + l[i..]);
  }

  // A page put in anywhere leaves the markers behind x.
  lemma InsertMarks(l: seq<nat>, i: nat, m: nat, x: nat, markers: set<nat>)
    requires i <= |l| && NoDup(InsertAt(l, i, m)) && x in l && m !in markers
    ensures MarksBehind(InsertAt(l, i, m), x, markers) == MarksBehind(l, x, markers)
  {
    var l', j := InsertAt(l, i, m), IndexOf(l, x);
    if j < i {
      assert l'[j] == x;
      IndexUnique(l', j);
      InsertSuffix(l, i, m, j + 1);
      CountInsert(l[j + 1..], i - j - 1, m, markers);
    } else {
      assert l'[j + 1] == x;
      IndexUnique(l', j + 1);
      assert l'[j + 2..] == l[j + 1..];
    }
  }

  lemma {:induction false} CountConcat(a: seq<nat>, b: seq<nat>, markers: set<nat>)
    ensures Count(a + b, markers) == Count(a, markers) + Count(b, markers)
  {
    if a == [] {
      assert a + b == b;
    } else {
      assert (a + b)[1..] == a[1..] + b;
      CountConcat(a[1..], b, markers);
    }
  }

  lemma CountInsert(l: seq<nat>, i: nat, x: nat, markers: set<nat>)
    requires i <= |l|
    ensures Count(InsertAt(l, i, x), markers) == Count(l, markers) + if x in markers then 0 else 1
  {
    CountConcat(l[..i], l[i..], markers);
    assert l[..i] + l[i..] == l;
    CountConcat(l[..i] + [x], l[i..], markers);
    CountConcat(l[..i], [x], markers);
  }

  lemma CountRemove(l: seq<nat>, i: nat, markers: set<nat>)
    requires i < |l|
    ensures Count(RemoveAt(l, i), markers) == Count(l, markers) - if l[i] in markers then 0 else 1
  {
    CountInsert(RemoveAt(l, i), i, l[i], markers);
    assert InsertAt(RemoveAt(l, i), i, l[i]) == l;
  }

  // For a list without repetitions it is the number of its pages.
  lemma {:induction false} CountIsPages(l: seq<nat>, markers: set<nat>)
    requires NoDup(l)
    ensures Count(l, markers) == |Pages(l, markers)|
  {
    if l != [] {
      CountIsPages(l[1..], markers);
      assert forall i :: 0 <= i < |l| - 1 ==> l[1..][i] == l[i + 1];
      assert l[0] !in Pages(l[1..], markers);
      assert Pages(l, markers) == Pages(l[1..], markers) + ({l[0]} - markers);
      assert l[0] !in markers ==> {l[0]} - markers == {l[0]};
      assert l[0] in markers ==> {l[0]} - markers == {};
    }
  }

  function InsertBefore(pl: seq<nat>, at: nat, x: nat): seq<nat>
    requires at in pl
  {
    InsertAt(pl, IndexOf(pl, at), x)
  }

  function IndexOf(q: seq<nat>, x: nat): (i: nat)
    requires x in q
    ensures i < |q| && q[i] == x
  {
    if q[0] == x then 0 else 1 + IndexOf(q[1..], x)
  }

  function RemoveAt(q: seq<nat>, i: nat): seq<nat>
    requires i < |q|
  {
    q[..i] + q[i + 1..]
  }

  lemma RemoveAtOk(q: seq<nat>, i: nat)
    requires NoDup(q) && i < |q|
    ensures NoDup(RemoveAt(q, i)) && Elems(RemoveAt(q, i)) == Elems(q) - {q[i]}
  {
    var r := RemoveAt(q, i);
    assert forall k :: 0 <= k < |r| ==> r[k] == q[if k < i then k else k + 1];
    forall x | x in Elems(q) - {q[i]} ensures x in r {
      var k :| 0 <= k < |q| && q[k] == x;
      assert r[if k < i then k else k - 1] == x;
    }
  }

  lemma InsertAtOk(q: seq<nat>, i: nat, x: nat)
    requires NoDup(q) && i <= |q| && x !in q
    ensures NoDup(InsertAt(q, i, x)) && Elems(InsertAt(q, i, x)) == Elems(q) + {x}
  {
    InsertNoDup(q, i, x);
  }

  // At every moment of the scan each page is in one place: in the list once, in the batch being examined,
  // in the batch to put back, or settled.
  ghost predicate Parted(all: set<nat>, listed: set<nat>, bq: seq<nat>, rq: seq<nat>, settled: set<nat>) {
    && NoDup(bq) && NoDup(rq)
    && all == listed + Elems(bq) + Elems(rq) + settled
    && listed !! Elems(bq) && listed !! Elems(rq) && listed !! settled
    && Elems(bq) !! Elems(rq) && Elems(bq) !! settled && Elems(rq) !! settled
  }

  ghost predicate Listed(pages: map<nat, Page>, s: set<nat>) {
    forall x :: x in s ==> x in pages && pages[x].queue == PqInactive && pages[x].enqueued
  }

  ghost predicate Loose(pages: map<nat, Page>, q: seq<nat>) {
    forall x :: x in q ==> x in pages && IsLoose(pages[x])
  }

  function Unlisted(p: Page): Page {
    p.(enqueued := false)
  }

  function PutBack(p: Page): Page {
    p.(enqueued := true, requeue := false, requeueHead := false)
  }

  // The pages after those of q have been taken off the list, and after those of s have been put back.

  function Cleared(pages: map<nat, Page>, q: seq<nat>): map<nat, Page> {
    map x | x in pages :: if x in q then Unlisted(pages[x]) else pages[x]
  }

  function Restored(pages: map<nat, Page>, s: set<nat>): map<nat, Page> {
    map x | x in pages :: if x in s then PutBack(pages[x]) else pages[x]
  }

  // After the pages b of list l0 have been taken off it.
  ghost predicate Swept(l0: seq<nat>, pages0: map<nat, Page>, markers: set<nat>, l: seq<nat>, b: seq<nat>,
                        pages: map<nat, Page>) {
    && NoDup(l) && NoDup(b)
    && Elems(b) <= Pages(l0, markers) && Elems(l) == Elems(l0) - Elems(b)
    && Count(l, markers) == Count(l0, markers) - |b|
    && pages == Cleared(pages0, b)
  }

  lemma SweptOne(l0: seq<nat>, pages0: map<nat, Page>, markers: set<nat>, l: seq<nat>, b: seq<nat>,
                 pages: map<nat, Page>, i: nat)
    requires Swept(l0, pages0, markers, l, b, pages) && i < |l| && l[i] !in markers && l[i] in pages
    ensures Swept(l0, pages0, markers, RemoveAt(l, i), b + [l[i]], pages[l[i] := Unlisted(pages[l[i]])])
  {
    RemoveAtOk(l, i);
    CountRemove(l, i, markers);
    assert l[i] in Elems(l);
    assert Elems(b + [l[i]]) == Elems(b) + {l[i]};
  }

  // The loop of vm_pageout_collect_batch, from behind the scan marker at index at.
  method Sweep(l0: seq<nat>, at: nat, markers: set<nat>, scanned0: nat, maxscan: nat, pages0: map<nat, Page>)
    returns (l: seq<nat>, i: nat, b: seq<nat>, scanned: nat, pages: map<nat, Page>)
    requires at < |l0| && NoDup(l0) && scanned0 <= maxscan && Pages(l0, markers) <= pages0.Keys
    ensures Swept(l0, pages0, markers, l, b, pages)
    ensures at < i <= |l| && l[at] == l0[at] && |b| <= BATCH
    ensures scanned0 + |b| <= scanned <= maxscan
    ensures |l| - i == |l0| - at - 1 - (scanned - scanned0)
    ensures MarksIn(l[i..], markers) == MarksIn(l0[at + 1..], markers) - (scanned - scanned0 - |b|)
    ensures scanned == maxscan || i == |l| || |b| == BATCH
  {
    l, i, b, scanned, pages := l0, at + 1, [], scanned0, pages0;
    while i < |l| && scanned < maxscan && |b| < BATCH
      invariant Swept(l0, pages0, markers, l, b, pages)
      invariant at < i <= |l| && l[at] == l0[at] && |b| <= BATCH
      invariant scanned0 + |b| <= scanned <= maxscan
      invariant |l| - i == |l0| - at - 1 - (scanned - scanned0)
      invariant MarksIn(l[i..], markers) == MarksIn(l0[at + 1..], markers) - (scanned - scanned0 - |b|)
      decreases |l| - i
    {
      var m := l[i];
      assert l[i..][0] == m && l[i..][1..] == l[i + 1..];
      if m in markers {
        i := i + 1;
      } else {
        assert m in Elems(l) && m in Pages(l0, markers);
        SweptOne(l0, pages0, markers, l, b, pages, i);
        b := b + [m];
        assert RemoveAt(l, i)[i..] == l[i + 1..];
        l := RemoveAt(l, i);
        pages := pages[m := Unlisted(pages[m])];
      }
      scanned := scanned + 1;
    }
  }

  // The marker at index at is then moved to where the loop stopped.
  lemma Relinked(l: seq<nat>, at: nat, i: nat, markers: set<nat>)
    requires NoDup(l) && at < i <= |l| && l[at] in markers
    ensures var l' := InsertAt(RemoveAt(l, at), i - 1, l[at]);
      && NoDup(l') && Elems(l') == Elems(l) && Count(l', markers) == Count(l, markers)
      && Behind(l', l[at]) == |l| - i && MarksBehind(l', l[at], markers) == MarksIn(l[i..], markers)
  {
    RemoveAtOk(l, at);
    assert l[at] in Elems(l) && l[at] !in Elems(RemoveAt(l, at));
    InsertAtOk(RemoveAt(l, at), i - 1, l[at]);
    CountRemove(l, at, markers);
    CountInsert(RemoveAt(l, at), i - 1, l[at], markers);
    IndexUnique(InsertAt(RemoveAt(l, at), i - 1, l[at]), i - 1);
    assert InsertAt(RemoveAt(l, at), i - 1, l[at])[i..] == l[i..];
  }

  // The markers of a list: all of them, ss->marker and vmd_inacthead.
  datatype Marks = Marks(all: set<nat>, scan: nat, head: nat)

  // Bounds on what lies ahead of the scan: entries or more of them, at most marks markers.
  datatype Ahead = Ahead(entries: int, marks: int)

  // The list holds both markers and each entry once, cnt counts its pages, and a is what lies ahead.
  ghost predicate GoodList(l: seq<nat>, cnt: int, k: Marks, a: Ahead) {
    && k.scan in k.all && k.head in k.all && k.scan != k.head
    && NoDup(l) && k.scan in l && k.head in l
    && cnt == Count(l, k.all)
    && Behind(l, k.scan) >= a.entries && MarksBehind(l, k.scan, k.all) <= a.marks
  }

  // vm_pageout_collect_batch(ss, true) on a list: the loop, then the move of the scan marker.
  method SweepFrom(l0: seq<nat>, cnt0: int, k: Marks, scanned0: nat, maxscan: nat, pages0: map<nat, Page>,
                   ghost marks: int)
    returns (l: seq<nat>, cnt: int, b: seq<nat>, scanned: nat, pages: map<nat, Page>)
    requires GoodList(l0, cnt0, k, Ahead(maxscan - scanned0, marks))
    requires scanned0 <= maxscan && Listed(pages0, Pages(l0, k.all))
    ensures GoodList(l, cnt, k, Ahead(maxscan - scanned, marks - (scanned - scanned0 - |b|)))
    ensures Swept(l0, pages0, k.all, l, b, pages)
    ensures |b| <= BATCH && scanned0 + |b| <= scanned <= maxscan
    ensures b == [] ==> scanned == maxscan
  {
    var at, i := IndexOf(l0, k.scan), 0;
    l, i, b, scanned, pages := Sweep(l0, at, k.all, scanned0, maxscan, pages0);
    Relinked(l, at, i, k.all);
    l := InsertAt(RemoveAt(l, at), i - 1, k.scan);
    cnt := cnt0 - |b|;
    assert k.scan in Elems(l0) && k.head in Elems(l0);
    assert k.scan in Elems(l) && k.head in Elems(l);
  }

  // vm_pageout_collect_batch(ss, false), for the scans that leave pages in the list: the batch is the next
  // entries as they stand, markers too, and only the scan marker moves, behind them.
  method CollectInPlace(l0: seq<nat>, marker: nat, scanned0: nat, maxscan: nat)
    returns (l: seq<nat>, b: seq<nat>, scanned: nat)
    requires marker in l0 && NoDup(l0) && scanned0 <= maxscan
    ensures var at := IndexOf(l0, marker);
      && at + |b| < |l0| && b == l0[at + 1..at + 1 + |b|]
      && l == l0[..at] + b + [marker] + l0[at + 1 + |b|..]
      && (|b| == BATCH || scanned == maxscan || at + 1 + |b| == |l0|)
    ensures scanned == scanned0 + |b| <= maxscan && |b| <= BATCH && Elems(l) == Elems(l0)
  {
    var at: nat := IndexOf(l0, marker);
    b, scanned := NextEntries(l0, at, scanned0, maxscan);
    l := InsertAt(RemoveAt(l0, at), at + |b|, marker);
    MovedBack(l0, at, at + 1 + |b|);
  }

  method NextEntries(l0: seq<nat>, at: nat, scanned0: nat, maxscan: nat) returns (b: seq<nat>, scanned: nat)
    requires at < |l0| && scanned0 <= maxscan
    ensures at + |b| < |l0| && b == l0[at + 1..at + 1 + |b|] && |b| <= BATCH && scanned == scanned0 + |b| <= maxscan
    ensures |b| == BATCH || scanned == maxscan || at + 1 + |b| == |l0|
  {
    var i: nat := at + 1;
    b, scanned := [], scanned0;
    while i < |l0| && scanned < maxscan && |b| < BATCH
      invariant at < i <= |l0| && b == l0[at + 1..i] && |b| <= BATCH
      invariant scanned == scanned0 + |b| <= maxscan
    {
      b := b + [l0[i]];
      i := i + 1;
      scanned := scanned + 1;
    }
  }

  lemma MovedBack(l: seq<nat>, at: nat, i: nat)
    requires at < i <= |l| && NoDup(l)
    ensures InsertAt(RemoveAt(l, at), i - 1, l[at]) == l[..at] + l[at + 1..i] + [l[at]] + l[i..]
    ensures Elems(InsertAt(RemoveAt(l, at), i - 1, l[at])) == Elems(l)
  {
    RemoveAtOk(l, at);
    assert l[at] in Elems(l) && l[at] !in Elems(RemoveAt(l, at));
    InsertAtOk(RemoveAt(l, at), i - 1, l[at]);
    assert RemoveAt(l, at)[..i - 1] == l[..at] + l[at + 1..i];
    assert RemoveAt(l, at)[i - 1..] == l[i..];
  }

  // Where a page comes back into the list: ahead of vmd_inacthead, at the tail, or behind the scan.
  function Back(l: seq<nat>, k: Marks, p: Page, m: nat): seq<nat>
    requires k.scan in l && k.head in l
  {
    if p.requeueHead then InsertBefore(l, k.head, m)
    else if p.requeue then InsertAt(l, |l|, m)
    else InsertBefore(l, k.scan, m)
  }

  // At index i the page stands directly ahead of vmd_inacthead or of the scan marker, or last.
  predicate PutAt(l: seq<nat>, k: Marks, p: Page, i: int) {
    if p.requeueHead then 0 <= i < |l| && l[i] == k.head
    else if p.requeue then i == |l|
    else 0 <= i < |l| && l[i] == k.scan
  }

  lemma BackOk(l: seq<nat>, k: Marks, p: Page, m: nat)
    requires k.scan in l && k.head in l && NoDup(l) && m !in l && m !in k.all
    ensures var l' := Back(l, k, p, m); NoDup(l') && Elems(l') == Elems(l) + {m}
    ensures var l' := Back(l, k, p, m);
      Count(l', k.all) == Count(l, k.all) + 1 && Behind(l', k.scan) >= Behind(l, k.scan)
      && MarksBehind(l', k.scan, k.all) == MarksBehind(l, k.scan, k.all)
  {
    CountInsert(l, IndexOf(l, k.head), m, k.all);
    CountInsert(l, |l|, m, k.all);
    CountInsert(l, IndexOf(l, k.scan), m, k.all);
    InsertAtOk(l, IndexOf(l, k.head), m);
    InsertAtOk(l, |l|, m);
    InsertAtOk(l, IndexOf(l, k.scan), m);
    InsertBehind(l, IndexOf(l, k.head), m, k.scan);
    InsertBehind(l, |l|, m, k.scan);
    InsertBehind(l, IndexOf(l, k.scan), m, k.scan);
    InsertMarks(l, IndexOf(l, k.head), m, k.scan, k.all);
    InsertMarks(l, |l|, m, k.scan, k.all);
    InsertMarks(l, IndexOf(l, k.scan), m, k.scan, k.all);
  }

  // vm_pageout_reinsert_inactive_page: 1 if the page went back.
  method ReinsertPage(l0: seq<nat>, k: Marks, m: nat, pages0: map<nat, Page>)
    returns (delta: nat, l: seq<nat>, pages: map<nat, Page>)
    requires k.scan in l0 && k.head in l0 && m in pages0
    ensures IsLoose(pages0[m]) ==>
      delta == 1 && l == Back(l0, k, pages0[m], m) && pages == pages0[m := PutBack(pages0[m])]
    ensures IsLoose(pages0[m]) ==>
      exists i :: 0 <= i <= |l0| && l == l0[..i] + [m] + l0[i..] && PutAt(l0, k, pages0[m], i)
    ensures IsLoose(pages0[m]) ==>
      m in pages && pages[m].enqueued && !pages[m].requeue && !pages[m].requeueHead && pages[m].t == pages0[m].t
    ensures !IsLoose(pages0[m]) ==> delta == 0 && l == l0 && pages == pages0
  {
    var p := pages0[m];
    ghost var p0 := p;
    if p.queue != PqInactive || p.enqueued {
      return 0, l0, pages0;
    }
    if p.requeueHead {
      l := InsertBefore(l0, k.head, m);
    } else if p.requeue {
      l := InsertAt(l0, |l0|, m);
    } else {
      l := InsertBefore(l0, k.scan, m);
    }
    p := p.(enqueued := true);
    if p.requeueHead || p.requeue {
      p := p.(requeue := false, requeueHead := false);
    }
    assert p == PutBack(pages0[m]);
    ghost var i := if p0.requeueHead then IndexOf(l0, k.head) else if p0.requeue then |l0| else IndexOf(l0, k.scan);
    assert l == l0[..i] + [m] + l0[i..] && PutAt(l0, k, p0, i);
    delta, pages := 1, pages0[m := p];
  }

  // After delta pages, those of done, have been put back into list l0.
  ghost predicate PutBackIn(l0: seq<nat>, pages0: map<nat, Page>, k: Marks, l: seq<nat>, pages: map<nat, Page>,
                            done: set<nat>, delta: nat) {
    && NoDup(l) && Elems(l) == Elems(l0) + done && pages == Restored(pages0, done)
    && Count(l, k.all) == Count(l0, k.all) + delta && Behind(l, k.scan) >= Behind(l0, k.scan)
    && MarksBehind(l, k.scan, k.all) == MarksBehind(l0, k.scan, k.all)
  }

  method ReinsertOne(ghost l0: seq<nat>, ghost pages0: map<nat, Page>, k: Marks, ghost done: set<nat>, l: seq<nat>,
                     delta: nat, pages: map<nat, Page>, m: nat)
    returns (delta': nat, l': seq<nat>, pages': map<nat, Page>)
    requires PutBackIn(l0, pages0, k, l, pages, done, delta) && k.scan in l0 && k.head in l0
    requires m in pages0 && IsLoose(pages0[m]) && m !in done && m !in l0 && m !in k.all
    ensures PutBackIn(l0, pages0, k, l', pages', done + {m}, delta') && delta' == delta + 1
  {
    assert k.scan in Elems(l) && k.head in Elems(l) && m !in Elems(l);
    BackOk(l, k, pages[m], m);
    var d;
    d, l', pages' := ReinsertPage(l, k, m, pages);
    RestoredOne(pages0, done, m);
    delta' := delta + d;
  }

  lemma RestoredOne(pages0: map<nat, Page>, done: set<nat>, m: nat)
    requires m in pages0 && m !in done
    ensures Restored(pages0, done)[m := PutBack(pages0[m])] == Restored(pages0, done + {m})
  {
  }

  // The loop over the batch, from its end.
  method Drain(ghost l0: seq<nat>, ghost pages0: map<nat, Page>, k: Marks, ghost first: set<nat>, l1: seq<nat>,
               delta1: nat, pages1: map<nat, Page>, rq: seq<nat>)
    returns (delta: nat, l: seq<nat>, pages: map<nat, Page>)
    requires PutBackIn(l0, pages0, k, l1, pages1, first, delta1) && k.scan in l0 && k.head in l0
    requires NoDup(rq) && Loose(pages0, rq) && Elems(rq) !! Elems(l0) + k.all && Elems(rq) !! first
    ensures PutBackIn(l0, pages0, k, l, pages, Elems(rq) + first, delta) && delta == delta1 + |rq|
  {
    delta, l, pages := delta1, l1, pages1;
    ghost var done := first;
    var n := |rq|;
    while n > 0
      invariant 0 <= n <= |rq| && delta == delta1 + |rq| - n
      invariant done == first + Elems(rq[n..])
      invariant PutBackIn(l0, pages0, k, l, pages, done, delta)
    {
      n := n - 1;
      assert rq[n..] == [rq[n]] + rq[n + 1..] && rq[n] !in rq[n + 1..];
      assert rq[n] in Elems(rq);
      delta, l, pages := ReinsertOne(l0, pages0, k, done, l, delta, pages, rq[n]);
      done := done + {rq[n]};
    }
    assert rq[0..] == rq;
  }

  // vm_pageout_reinsert_inactive: either m fits in the batch, or it and the whole batch go back.
  method ReinsertBatch(l0: seq<nat>, cnt0: int, k: Marks, rq: seq<nat>, m: Option<nat>, pages0: map<nat, Page>,
                       ghost a: Ahead)
    returns (l: seq<nat>, cnt: int, rq': seq<nat>, pages: map<nat, Page>)
    requires GoodList(l0, cnt0, k, a) && NoDup(rq) && |rq| <= BATCH && Loose(pages0, rq)
    requires Elems(rq) + OneOf(m) !! Elems(l0) + k.all && Elems(rq) !! OneOf(m)
    requires m.Some? ==> m.value in pages0 && IsLoose(pages0[m.value])
    ensures GoodList(l, cnt, k, a)
    ensures m.Some? && |rq| < BATCH ==> l == l0 && rq' == rq + [m.value] && pages == pages0
    ensures !(m.Some? && |rq| < BATCH) ==>
      rq' == [] && Elems(l) == Elems(l0) + (Elems(rq) + OneOf(m)) && pages == Restored(pages0, Elems(rq) + OneOf(m))
  {
    l, cnt, rq', pages := l0, cnt0, [], pages0;
    var delta: nat := 0;
    assert Restored(pages0, {}) == pages0;
    if m.Some? {
      if |rq| < BATCH {
        rq' := rq + [m.value];
        return;
      }
      assert m.value in OneOf(m);
      delta, l, pages := ReinsertOne(l0, pages0, k, {}, l0, 0, pages0, m.value);
    }
    delta, l, pages := Drain(l0, pages0, k, OneOf(m), l, delta, pages, rq);
    assert k.scan in Elems(l0) && k.head in Elems(l0);
    assert k.scan in Elems(l) && k.head in Elems(l);
    cnt := cnt + delta;
  }

  function OneOf(m: Option<nat>): set<nat> {
    if m.Some? then {m.value} else {}
  }

  // What the tests of a page answer, but for the reference of a page the scan has requeued.
  predicate SameTests(p0: Page, p: Page) {
    p.t == p0.t || (Due(p0.t, Requeued) && p.t == p0.t.(referenced := false))
  }

  predicate NoNewFlags(p0: Page, p: Page) {
    (p.requeue ==> p0.requeue) && (p.requeueHead ==> p0.requeueHead)
  }

  // The verdict was due on what the page was when the scan began, or, for a page that has been requeued,
  // on that without its reference.
  predicate Justified(p0: Page, v: Verdict) {
    Due(p0.t, v) || (Due(p0.t, Requeued) && Due(p0.t.(referenced := false), v))
  }

  type Pool = map<nat, Page>

  // The pages that have not left are as they were, and are where the lists say.
  ghost predicate InHand(all: set<nat>, pages0: Pool, pages: Pool, listed: set<nat>, bq: seq<nat>, rq: seq<nat>,
                         settled: map<nat, Verdict>) {
    && all <= pages.Keys && pages.Keys == pages0.Keys
    && Listed(pages, listed) && Loose(pages, bq) && Loose(pages, rq)
    && (forall x :: x in all && x !in settled ==> SameTests(pages0[x], pages[x]))
    && (forall x :: x in listed && x in all ==> NoNewFlags(pages0[x], pages[x]))
    && forall x :: x in bq && x in all ==> NoNewFlags(pages0[x], pages[x])
  }

  // The pages that have left did so for a reason, and are left behind as their verdict says.
  ghost predicate AllSettled(all: set<nat>, pages0: Pool, pages: Pool, settled: map<nat, Verdict>)
    requires all <= pages.Keys && all <= pages0.Keys
  {
    forall x :: x in settled && x in all ==>
      Leaves(settled[x]) && Justified(pages0[x], settled[x]) && AtRest(pages[x], settled[x])
  }

  ghost predicate Running(all: set<nat>, pages0: Pool, pages: Pool, listed: set<nat>, bq: seq<nat>, rq: seq<nat>,
                          settled: map<nat, Verdict>) {
    && Parted(all, listed, bq, rq, settled.Keys)
    && InHand(all, pages0, pages, listed, bq, rq, settled)
    && AllSettled(all, pages0, pages, settled)
  }

  lemma Took(all: set<nat>, pages0: Pool, pages: Pool, listed: set<nat>, rq: seq<nat>, settled: map<nat, Verdict>,
             b: seq<nat>)
    requires Running(all, pages0, pages, listed, [], rq, settled) && NoDup(b) && Elems(b) <= listed
    ensures Running(all, pages0, Cleared(pages, b), listed - Elems(b), b, rq, settled)
  {
    assert forall x :: x in b ==> x in Elems(b);
  }

  lemma LastOf(b: seq<nat>, m: nat)
    requires NoDup(b + [m])
    ensures NoDup(b) && m !in b && Elems(b + [m]) == Elems(b) + {m}
  {
    var q := b + [m];
    assert forall i :: 0 <= i < |b| ==> q[i] == b[i];
    assert q[|b|] == m;
  }

  // The last page of the batch leaves.
  lemma LeftOne(all: set<nat>, pages0: Pool, pages: Pool, listed: set<nat>, b: seq<nat>, m: nat, rq: seq<nat>,
                settled: map<nat, Verdict>, v: Verdict, p: Page)
    requires Running(all, pages0, pages, listed, b + [m], rq, settled)
    requires m in pages && Leaves(v) && Due(pages[m].t, v) && AtRest(p, v)
    ensures Running(all, pages0, pages[m := p], listed, b, rq, settled[m := v])
  {
    LeftParted(all, listed, b, m, rq, settled.Keys);
    LeftInHand(all, pages0, pages, listed, b, m, rq, settled, v, p);
    assert settled[m := v].Keys == settled.Keys + {m};
  }

  lemma LeftParted(all: set<nat>, listed: set<nat>, b: seq<nat>, m: nat, rq: seq<nat>, settled: set<nat>)
    requires Parted(all, listed, b + [m], rq, settled)
    ensures Parted(all, listed, b, rq, settled + {m})
    ensures m in all && m !in settled && m !in listed && m !in b && m !in rq
  {
    LastOf(b, m);
    assert m in Elems(b + [m]);
    assert m !in rq by { assert m !in Elems(rq); }
  }

  lemma LeftInHand(all: set<nat>, pages0: Pool, pages: Pool, listed: set<nat>, b: seq<nat>, m: nat, rq: seq<nat>,
                   settled: map<nat, Verdict>, v: Verdict, p: Page)
    requires InHand(all, pages0, pages, listed, b + [m], rq, settled)
    requires m in all && m !in settled && m !in listed && m !in b && m !in rq
    ensures InHand(all, pages0, pages[m := p], listed, b, rq, settled[m := v])
  {
    assert forall x :: x in b ==> x in b + [m];
  }

  // The last page of the batch joins those to put back.
  lemma KeptOne(all: set<nat>, pages0: Pool, pages: Pool, listed: set<nat>, b: seq<nat>, m: nat, rq: seq<nat>,
                settled: map<nat, Verdict>, p: Page)
    requires Running(all, pages0, pages, listed, b + [m], rq, settled)
    requires m in pages && IsLoose(p) && SameTests(pages[m], p)
    ensures Running(all, pages0, pages[m := p], listed, b, rq + [m], settled)
  {
    KeptParted(all, listed, b, m, rq, settled.Keys);
    KeptInHand(all, pages0, pages, listed, b, m, rq, settled, p);
  }

  lemma KeptParted(all: set<nat>, listed: set<nat>, b: seq<nat>, m: nat, rq: seq<nat>, settled: set<nat>)
    requires Parted(all, listed, b + [m], rq, settled)
    ensures Parted(all, listed, b, rq + [m], settled) && m in all && m !in settled && m !in listed && m !in b
  {
    LastOf(b, m);
    assert m in Elems(b + [m]);
    assert m !in rq by { assert m !in Elems(rq); }
    Appended(rq, m);
  }

  lemma KeptInHand(all: set<nat>, pages0: Pool, pages: Pool, listed: set<nat>, b: seq<nat>, m: nat, rq: seq<nat>,
                   settled: map<nat, Verdict>, p: Page)
    requires InHand(all, pages0, pages, listed, b + [m], rq, settled)
    requires m in all && m !in settled && m !in listed && m !in b && IsLoose(p) && SameTests(pages[m], p)
    ensures InHand(all, pages0, pages[m := p], listed, b, rq + [m], settled)
  {
    assert forall x :: x in b ==> x in b + [m];
  }

  lemma Appended(rq: seq<nat>, m: nat)
    requires NoDup(rq) && m !in rq
    ensures NoDup(rq + [m]) && Elems(rq + [m]) == Elems(rq) + {m}
  {
  }

  // Those to put back are put back.
  lemma AllBack(all: set<nat>, pages0: Pool, pages: Pool, listed: set<nat>, bq: seq<nat>, rq: seq<nat>,
                settled: map<nat, Verdict>)
    requires Running(all, pages0, pages, listed, bq, rq, settled)
    ensures Running(all, pages0, Restored(pages, Elems(rq)), listed + Elems(rq), bq, [], settled)
  {
    assert forall x :: x in bq ==> x in Elems(bq);
  }

  // The state of a scan of a good list, all of whose pages are accounted for.
  ghost predicate Scanning(all: set<nat>, pages0: Pool, pages: Pool, l: seq<nat>, cnt: int, k: Marks, bq: seq<nat>,
                           rq: seq<nat>, settled: map<nat, Verdict>, a: Ahead) {
    && GoodList(l, cnt, k, a) && all !! k.all
    && Running(all, pages0, pages, Pages(l, k.all), bq, rq, settled)
  }

  // vm_pageout_next when the batch is empty
  method Refill(ghost all: set<nat>, ghost pages0: Pool, pages: Pool, l: seq<nat>, cnt: int, k: Marks,
                ghost rq: seq<nat>, ghost settled: map<nat, Verdict>, scanned: nat, maxscan: nat, ghost marks: int)
    returns (pages': Pool, l': seq<nat>, cnt': int, b: seq<nat>, scanned': nat)
    requires Scanning(all, pages0, pages, l, cnt, k, [], rq, settled, Ahead(maxscan - scanned, marks))
    requires scanned <= maxscan
    ensures Scanning(all, pages0, pages', l', cnt', k, b, rq, settled,
                     Ahead(maxscan - scanned', marks - (scanned' - scanned - |b|)))
    ensures scanned + |b| <= scanned' <= maxscan && |b| <= BATCH && (b == [] ==> scanned' == maxscan)
  {
    l', cnt', b, scanned', pages' := SweepFrom(l, cnt, k, scanned, maxscan, pages, marks);
    Took(all, pages0, pages, Pages(l, k.all), rq, settled, b);
    assert Pages(l', k.all) == Pages(l, k.all) - Elems(b);
  }

  // The page m, just popped, goes to be put back, in a batch or with it.
  method PutAside(ghost all: set<nat>, ghost pages0: Pool, pages: Pool, l: seq<nat>, cnt: int, k: Marks,
                  ghost b: seq<nat>, m: nat, rq: seq<nat>, ghost settled: map<nat, Verdict>, p: Page, ghost a: Ahead)
    returns (pages': Pool, l': seq<nat>, cnt': int, rq': seq<nat>)
    requires Scanning(all, pages0, pages, l, cnt, k, b + [m], rq, settled, a) && |rq| <= BATCH
    requires m in pages && IsLoose(p) && SameTests(pages[m], p)
    ensures Scanning(all, pages0, pages', l', cnt', k, b, rq', settled, a) && |rq'| <= BATCH
  {
    LastOf(b, m);
    ghost var listed := Pages(l, k.all);
    KeptOne(all, pages0, pages, listed, b, m, rq, settled, p);
    AllBack(all, pages0, pages[m := p], listed, b, rq + [m], settled);
    AsideFits(all, pages, listed, l, k.all, b, m, rq, settled.Keys, p);
    l', cnt', rq', pages' := ReinsertBatch(l, cnt, k, rq, Some(m), pages[m := p], a);
    if rq' == [] {
      assert Pages(l', k.all) == listed + Elems(rq + [m]);
    }
  }

  lemma AsideFits(all: set<nat>, pages: Pool, listed: set<nat>, l: seq<nat>, markers: set<nat>, b: seq<nat>, m: nat,
                  rq: seq<nat>, settled: set<nat>, p: Page)
    requires Parted(all, listed, b + [m], rq, settled) && listed == Pages(l, markers) && all !! markers
    requires Loose(pages, rq) && IsLoose(p)
    ensures Loose(pages[m := p], rq) && Elems(rq) !! {m} && Elems(rq) + {m} !! Elems(l) + markers
    ensures NoDup(rq) && Elems(rq + [m]) == Elems(rq) + {m}
  {
    LastOf(b, m);
    assert forall x :: x in rq ==> x in Elems(rq);
    assert m !in rq by { assert m !in Elems(rq); }
    Appended(rq, m);
    assert Elems(rq) + {m} <= all;
  }

  // A verdict the scan may come to on page x.
  ghost predicate Found(pages0: Pool, x: nat, v: Verdict) {
    && x in pages0
    && (v == Again ==> (pages0[x].requeue || pages0[x].requeueHead) && !pages0[x].t.dequeue)
    && (v != Again ==> Justified(pages0[x], v))
  }

  lemma InBatch(all: set<nat>, pages0: Pool, pages: Pool, listed: set<nat>, b: seq<nat>, m: nat, rq: seq<nat>,
                settled: map<nat, Verdict>)
    requires Running(all, pages0, pages, listed, b + [m], rq, settled)
    ensures m in all && m !in settled && m in pages0 && m in pages && SameTests(pages0[m], pages[m])
    ensures IsLoose(pages[m]) && NoNewFlags(pages0[m], pages[m])
  {
    assert m in Elems(b + [m]);
  }

  // One page, popped from the batch.
  method ScanOne(ghost all: set<nat>, ghost pages0: Pool, pages: Pool, l: seq<nat>, cnt: int, k: Marks,
                 bq: seq<nat>, rq: seq<nat>, ghost settled: map<nat, Verdict>, ghost a: Ahead)
    returns (pages': Pool, l': seq<nat>, cnt': int, bq': seq<nat>, rq': seq<nat>, m: nat, v: Verdict)
    requires Scanning(all, pages0, pages, l, cnt, k, bq, rq, settled, a) && bq != [] && |rq| <= BATCH
    ensures |rq'| <= BATCH && m !in settled && Found(pages0, m, v) && |bq'| == |bq| - 1
    ensures Scanning(all, pages0, pages', l', cnt', k, bq', rq', if Leaves(v) then settled[m := v] else settled, a)
  {
    m, bq' := bq[|bq| - 1], bq[..|bq| - 1];
    assert bq == bq' + [m];
    InBatch(all, pages0, pages, Pages(l, k.all), bq', m, rq, settled);
    var p;
    v, p := Examine(pages[m]);
    if Leaves(v) {
      LeftOne(all, pages0, pages, Pages(l, k.all), bq', m, rq, settled, v, p);
      pages', l', cnt', rq' := pages[m := p], l, cnt, rq;
    } else {
      pages', l', cnt', rq' := PutAside(all, pages0, pages, l, cnt, k, bq', m, rq, settled, p, a);
    }
  }

  // The pages freed so far, in order.
  ghost predicate FreedAre(settled: map<nat, Verdict>, freed: seq<nat>) {
    NoDup(freed) && forall x :: x in freed <==> x in settled && settled[x] == Freed
  }

  lemma FreedMore(settled: map<nat, Verdict>, freed: seq<nat>, m: nat, v: Verdict)
    requires FreedAre(settled, freed) && m !in settled
    ensures FreedAre(if Leaves(v) then settled[m := v] else settled, if v == Freed then freed + [m] else freed)
  {
  }

  // The examinations made: page and verdict.
  type Log = seq<(nat, Verdict)>

  ghost predicate LogOk(pages0: Pool, settled: map<nat, Verdict>, log: Log) {
    && (forall i :: 0 <= i < |log| ==> Found(pages0, log[i].0, log[i].1))
    && forall x :: x in settled ==> (x, settled[x]) in log
  }

  // Pages found gone, held or busy: the additional shortage.
  predicate Discounted(v: Verdict) {
    v == Gone || v == Stuck
  }

  function Discount(log: Log): nat {
    if log == [] then 0 else Discount(log[..|log| - 1]) + if Discounted(log[|log| - 1].1) then 1 else 0
  }

  // The examinations that found a page gone, held or busy.
  ghost function Discounts(log: Log, n: nat): set<int>
    requires n <= |log|
  {
    set i | 0 <= i < n && (log[i].1 == Gone || log[i].1 == Stuck)
  }

  lemma {:induction false} DiscountCounts(log: Log, n: nat)
    requires n <= |log|
    ensures Discount(log[..n]) == |Discounts(log, n)|
  {
    if n == 0 {
      assert Discounts(log, 0) == {};
    } else {
      DiscountCounts(log, n - 1);
      assert log[..n][..n - 1] == log[..n - 1];
      OneMoreDiscount(log, n);
    }
  }

  lemma OneMoreDiscount(log: Log, n: nat)
    requires 0 < n <= |log|
    ensures |Discounts(log, n)| == |Discounts(log, n - 1)| + if Discounted(log[n - 1].1) then 1 else 0
  {
    var one := if Discounted(log[n - 1].1) then {n - 1} else {};
    assert Discounts(log, n) == Discounts(log, n - 1) + one;
    assert Discounts(log, n - 1) !! one;
  }

  // The books of the scan: what has been freed, and the additional shortage.
  ghost predicate Booked(pages0: Pool, settled: map<nat, Verdict>, freed: seq<nat>, log: Log, shortage0: int,
                         shortage: int,
                         addl: nat) {
    && FreedAre(settled, freed) && LogOk(pages0, settled, log)
    && shortage == shortage0 - |freed| && addl == Discount(log)
    && (shortage0 <= 0 ==> freed == [])
  }

  lemma BookMore(pages0: Pool, settled: map<nat, Verdict>, freed: seq<nat>, log: Log, shortage0: int, shortage: int,
                 addl: nat,
                 m: nat, v: Verdict)
    requires Booked(pages0, settled, freed, log, shortage0, shortage, addl) && shortage > 0
    requires m !in settled && Found(pages0, m, v)
    ensures Booked(pages0, if Leaves(v) then settled[m := v] else settled, if v == Freed then freed + [m] else freed,
                   log + [(m, v)], shortage0, if v == Freed then shortage - 1 else shortage,
                   if Discounted(v) then addl + 1 else addl)
  {
    FreedMore(settled, freed, m, v);
    assert (log + [(m, v)])[..|log|] == log;
    var settled' := if Leaves(v) then settled[m := v] else settled;
    forall x | x in settled' ensures (x, settled'[x]) in log + [(m, v)] {
      assert x != m ==> (x, settled[x]) in log;
    }
  }

  // The scan of vm_pageout_scan_inactive, from behind the marker, for at most maxscan entries.  What it
  // scans it either takes and examines or passes as a marker.
  method ScanList(l0: seq<nat>, cnt0: int, k: Marks, pages0: Pool, maxscan: nat, shortage0: int, ghost marks: int)
    returns (l: seq<nat>, cnt: int, pages: Pool, bq: seq<nat>, rq: seq<nat>, scanned: nat, shortage: int, addl: nat,
             ghost settled: map<nat, Verdict>, ghost freed: seq<nat>, ghost log: Log)
    requires GoodList(l0, cnt0, k, Ahead(maxscan, marks)) && Listed(pages0, Pages(l0, k.all))
    ensures Scanning(Pages(l0, k.all), pages0, pages, l, cnt, k, bq, rq, settled,
                     Ahead(maxscan - scanned, marks - (scanned - |log| - |bq|)))
    ensures scanned <= maxscan && (shortage > 0 ==> bq == [] && scanned == maxscan) && |rq| <= BATCH && |bq| <= BATCH
    ensures Booked(pages0, settled, freed, log, shortage0, shortage, addl)
  {
    ghost var all := Pages(l0, k.all);
    l, cnt, pages, shortage, settled, freed := l0, cnt0, pages0, shortage0, map[], [];
    bq, rq, scanned, addl, log := [], [], 0, 0, [];
    while shortage > 0
      invariant Scanning(all, pages0, pages, l, cnt, k, bq, rq, settled,
                         Ahead(maxscan - scanned, marks - (scanned - |log| - |bq|)))
      invariant |rq| <= BATCH && |bq| <= BATCH && scanned <= maxscan
      invariant Booked(pages0, settled, freed, log, shortage0, shortage, addl)
      decreases maxscan - scanned, |bq|
    {
      if bq == [] {
        pages, l, cnt, bq, scanned := Refill(all, pages0, pages, l, cnt, k, rq, settled, scanned, maxscan,
                                             marks - (scanned - |log|));
        if bq == [] {
          break;
        }
      }
      var m, v;
      ghost var a := Ahead(maxscan - scanned, marks - (scanned - |log| - |bq|));
      pages, l, cnt, bq, rq, m, v := ScanOne(all, pages0, pages, l, cnt, k, bq, rq, settled, a);
      BookMore(pages0, settled, freed, log, shortage0, shortage, addl, m, v);
      log := log + [(m, v)];
      if Discounted(v) {
        addl := addl + 1;
      }
      if v == Freed {
        shortage := shortage - 1;
        freed := freed + [m];
      }
      if Leaves(v) {
        settled := settled[m := v];
      }
    }
  }

  lemma {:induction false} NoDupCard(q: seq<nat>)
    requires NoDup(q)
    ensures |Elems(q)| == |q|
  {
    if q != [] {
      NoDupCard(q[1..]);
      assert Elems(q) == {q[0]} + Elems(q[1..]);
      assert forall i :: 0 <= i < |q| - 1 ==> q[1..][i] == q[i + 1];
      assert q[0] !in q[1..];
    }
  }

  ghost function FreedIn(settled: map<nat, Verdict>): set<nat> {
    set x | x in settled && settled[x] == Freed
  }

  lemma FreedCount(settled: map<nat, Verdict>, freed: seq<nat>)
    requires FreedAre(settled, freed)
    ensures |FreedIn(settled)| == |freed|
  {
    NoDupCard(freed);
    assert FreedIn(settled) == Elems(freed);
  }

  // Between scans: the scan marker is not in the list.
  ghost predicate AtPeace(l: seq<nat>, cnt: int, k: Marks, pages: Pool) {
    && k.scan in k.all && k.head in k.all && k.scan != k.head
    && NoDup(l) && k.scan !in l && k.head in l
    && cnt == Count(l, k.all)
    && Listed(pages, Pages(l, k.all))
  }

  lemma {:induction false} CountAtMost(l: seq<nat>, markers: set<nat>)
    ensures Count(l, markers) <= |l|
  {
    if l != [] {
      CountAtMost(l[1..], markers);
    }
  }

  // vm_pageout_init_scan
  method InitScan(l0: seq<nat>, cnt: int, k: Marks, ghost pages: Pool)
    returns (l: seq<nat>)
    requires AtPeace(l0, cnt, k, pages)
    ensures GoodList(l, cnt, k, Ahead(cnt, MarksIn(l0, k.all))) && Pages(l, k.all) == Pages(l0, k.all)
  {
    InsertAtOk(l0, 0, k.scan);
    CountInsert(l0, 0, k.scan, k.all);
    l := InsertAt(l0, 0, k.scan);
    assert k.scan in Elems(l) && k.head in Elems(l0) && k.head in Elems(l);
    IndexUnique(l, 0);
    assert l[1..] == l0;
    CountAtMost(l0, k.all);
  }

  // vm_pageout_end_scan
  method EndScan(l0: seq<nat>, cnt: int, k: Marks, ghost pages: Pool, ghost a: Ahead)
    returns (l: seq<nat>)
    requires GoodList(l0, cnt, k, a) && Listed(pages, Pages(l0, k.all))
    ensures AtPeace(l, cnt, k, pages) && Pages(l, k.all) == Pages(l0, k.all)
  {
    var i := IndexOf(l0, k.scan);
    RemoveAtOk(l0, i);
    CountRemove(l0, i, k.all);
    l := RemoveAt(l0, i);
    assert k.head in Elems(l0) && k.head in Elems(l) && k.scan !in Elems(l);
    assert Pages(l, k.all) == Pages(l0, k.all);
  }

  // The pages put aside are put back for good.
  method PutAllBack(ghost all: set<nat>, ghost pages0: Pool, pages: Pool, l: seq<nat>, cnt: int, k: Marks,
                    ghost bq: seq<nat>, rq: seq<nat>, ghost settled: map<nat, Verdict>, ghost a: Ahead)
    returns (pages': Pool, l': seq<nat>, cnt': int)
    requires Scanning(all, pages0, pages, l, cnt, k, bq, rq, settled, a) && |rq| <= BATCH
    ensures Scanning(all, pages0, pages', l', cnt', k, bq, [], settled, a)
  {
    AllBack(all, pages0, pages, Pages(l, k.all), bq, rq, settled);
    assert Elems(rq) <= all;
    var none;
    l', cnt', none, pages' := ReinsertBatch(l, cnt, k, rq, None, pages, a);
    assert Elems(rq) + OneOf(None) == Elems(rq);
    assert Pages(l', k.all) == Pages(l, k.all) + Elems(rq);
  }

  // A whole scan of a list at peace, from vm_pageout_init_scan to vm_pageout_end_scan.
  method ScanAll(l0: seq<nat>, cnt0: int, k: Marks, pages0: Pool, shortage: int)
    returns (l: seq<nat>, cnt: int, pages: Pool, scanned: nat, left: int, addl: nat, ghost settled: map<nat, Verdict>,
             ghost log: Log)
    requires AtPeace(l0, cnt0, k, pages0)
    ensures AtPeace(l, cnt, k, pages) && Settles(l0, pages0, k, l, pages, settled)
    ensures left == shortage - |FreedIn(settled)| && (shortage <= 0 ==> FreedIn(settled) == {})
    ensures LogOk(pages0, settled, log) && addl == Discount(log)
    ensures scanned <= cnt0 && (left > 0 ==> scanned == cnt0 && |log| >= cnt0 - MarksIn(l0, k.all))
  {
    ghost var all, marks := Pages(l0, k.all), MarksIn(l0, k.all);
    l := InitScan(l0, cnt0, k, pages0);
    var bq, rq;
    ghost var freed;
    l, cnt, pages, bq, rq, scanned, left, addl, settled, freed, log :=
      ScanList(l, cnt0, k, pages0, cnt0, shortage, marks);
    FreedCount(settled, freed);
    ghost var a := Ahead(cnt0 - scanned, marks - (scanned - |log| - |bq|));
    AheadOk(all, pages0, pages, l, cnt, k, bq, rq, settled, a);
    pages, l, cnt := PutAllBack(all, pages0, pages, l, cnt, k, bq, rq, settled, a);
    Swap(all, pages0, pages, l, cnt, k, bq, settled, a);
    pages, l, cnt := PutAllBack(all, pages0, pages, l, cnt, k, [], bq, settled, a);
    AllParted(all, pages0, pages, l, cnt, k, settled, a);
    l := EndScan(l, cnt, k, pages, a);
  }

  // Each page of list l0 is in list l, or has been settled.
  ghost predicate Settles(l0: seq<nat>, pages0: Pool, k: Marks, l: seq<nat>, pages: Pool, settled: map<nat, Verdict>) {
    && settled.Keys <= Pages(l0, k.all) <= pages0.Keys == pages.Keys
    && Pages(l, k.all) == Pages(l0, k.all) - settled.Keys
    && AllSettled(settled.Keys, pages0, pages, settled)
  }

  lemma Swap(all: set<nat>, pages0: Pool, pages: Pool, l: seq<nat>, cnt: int, k: Marks, bq: seq<nat>,
             settled: map<nat, Verdict>, a: Ahead)
    requires Scanning(all, pages0, pages, l, cnt, k, bq, [], settled, a)
    ensures Scanning(all, pages0, pages, l, cnt, k, [], bq, settled, a)
  {
  }

  lemma AllParted(all: set<nat>, pages0: Pool, pages: Pool, l: seq<nat>, cnt: int, k: Marks,
                  settled: map<nat, Verdict>, a: Ahead)
    requires Scanning(all, pages0, pages, l, cnt, k, [], [], settled, a)
    ensures Listed(pages, Pages(l, k.all)) && settled.Keys <= all <= pages0.Keys == pages.Keys
    ensures Pages(l, k.all) == all - settled.Keys && AllSettled(settled.Keys, pages0, pages, settled)
  {
  }

  datatype LaundryRequest = LaundryIdle | LaundryBackground | LaundryShortfall

  // A domain's inactive queue: pq_pl and pq_cnt, and the pages.
  class InactiveQueue {
    const k: Marks                // vmd_markers[PQ_INACTIVE] and vmd_inacthead among the markers
    var pl: seq<nat>
    var cnt: int
    var pages: Pool
    var pdpages: int              // pq_pdpages
    var request: LaundryRequest   // vmd_laundry_request
    var cleanFreed: int           // vmd_clean_pages_freed

    ghost predicate Valid()
      reads this
    {
      AtPeace(pl, cnt, k, pages)
    }

    // The list part of vm_pageout_scan_inactive: every page that was in the list is in it again, once, or
    // has left it for the reason settled gives; the shortage that is left is less by one for each page
    // freed, and the additional shortage counts the pages found gone, held or busy.  If the target is
    // missed, as many entries were scanned as the list had pages, all of them examined but the markers.
    method ScanPages(shortage: int) returns (left: int, addl: nat, ghost settled: map<nat, Verdict>, ghost log: Log)
      requires Valid()
      modifies this`pl, this`cnt, this`pages, this`pdpages
      ensures Valid()
      ensures Settles(old(pl), old(pages), k, pl, pages, settled)
      ensures left == shortage - |FreedIn(settled)| && (shortage <= 0 ==> FreedIn(settled) == {})
      ensures LogOk(old(pages), settled, log) && addl == Discount(log)
      ensures pdpages <= old(pdpages) + old(cnt) && (left > 0 ==> pdpages == old(pdpages) + old(cnt))
      ensures left > 0 ==> |log| >= old(cnt) - MarksIn(old(pl), k.all)
    {
      var n;
      pl, cnt, pages, n, left, addl, settled, log := ScanAll(pl, cnt, k, pages, shortage);
      pdpages := pdpages + n;
    }

    // What vm_pageout_scan_inactive asks of the laundry thread; canLaunder: PQ_LAUNDRY is not empty or swap
    // is enabled.
    method RequestLaundry(starting: int, left: int, canLaunder: bool)
      modifies this`request, this`cleanFreed
      ensures starting <= 0 ==> request == old(request) && cleanFreed == old(cleanFreed)
      ensures starting > 0 ==> cleanFreed == old(cleanFreed) + starting - left
      ensures old(request) != LaundryIdle || !canLaunder ==> request == old(request)
      ensures starting > 0 && old(request) == LaundryIdle && canLaunder ==>
        request == if left > 0 then LaundryShortfall else LaundryBackground
    {
      if starting > 0 {
        if request == LaundryIdle && canLaunder {
          if left > 0 {
            request := LaundryShortfall;
          } else if request != LaundryShortfall {
            request := LaundryBackground;
          }
        }
        cleanFreed := cleanFreed + starting - left;
      }
    }

    // vm_pageout_scan_inactive: true if the shortage was met.  What is left of it is what the
    // out-of-memory vote is told.
    method ScanInactive(shortage: int, deficit: nat, canLaunder: bool)
      returns (met: bool, left: int, addl: nat, ghost settled: map<nat, Verdict>, ghost log: Log)
      requires Valid()
      modifies this
      ensures Valid()
      ensures Settles(old(pl), old(pages), k, pl, pages, settled)
      ensures left == shortage + deficit - |FreedIn(settled)| && (met <==> left <= 0)
      ensures LogOk(old(pages), settled, log) && addl == |Discounts(log, |log|)| + deficit
      ensures Oom.Fails(shortage + deficit, left) <==> shortage + deficit > 0 && FreedIn(settled) == {}
      ensures pdpages <= old(pdpages) + old(cnt) && (left > 0 ==> pdpages == old(pdpages) + old(cnt))
      ensures left > 0 ==> |log| >= old(cnt) - MarksIn(old(pl), k.all)
      ensures cleanFreed == old(cleanFreed) + |FreedIn(settled)|
      ensures request == LaundryShortfall <==>
        old(request) == LaundryShortfall || (old(request) == LaundryIdle && canLaunder && left > 0)
      ensures request == LaundryIdle <==> old(request) == LaundryIdle && (!canLaunder || shortage + deficit <= 0)
    {
      var starting := shortage + deficit;
      left, addl, settled, log := ScanPages(starting);
      DiscountCounts(log, |log|);
      assert log[..|log|] == log;
      addl := addl + deficit;
      RequestLaundry(starting, left, canLaunder);
      met := left <= 0;
    }
  }

  // There is no less than no marker ahead.
  lemma AheadOk(all: set<nat>, pages0: Pool, pages: Pool, l: seq<nat>, cnt: int, k: Marks, bq: seq<nat>, rq: seq<nat>,
                settled: map<nat, Verdict>, a: Ahead)
    requires Scanning(all, pages0, pages, l, cnt, k, bq, rq, settled, a)
    ensures a.marks >= 0
  {
    CountAtMost(l[IndexOf(l, k.scan) + 1..], k.all);
  }

  // pq_cnt is the number of pages physically queued.
  lemma CntCountsPages(l: seq<nat>, cnt: int, k: Marks, pages: Pool)
    requires AtPeace(l, cnt, k, pages)
    ensures cnt == |Pages(l, k.all)|
  {
    CountIsPages(l, k.all);
  }
}
