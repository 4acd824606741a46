/** vm_pageout_flush: what becomes of the pages of a cluster, from the status the pager gives each. */
module Flush {
  // VM_PAGER_*
  datatype Status = Ok | Pend | Bad | Error | Fail | Again

  // Where a flushed page goes, and whether the flush releases it (vm_object_pip_wakeup, vm_page_sunbusy).
  datatype Fate = InFlight | Kept | Deactivated | Unswappable | Activated

  // The rules of the switch over the status.  inLaundry: the page still is when the status is seen; swap:
  // the object is backed by swap.

  function FateOf(s: Status, inLaundry: bool, swap: bool): Fate {
    match s
    case Pend => InFlight
    case Ok => if inLaundry then Deactivated else Kept
    case Bad => if inLaundry then Deactivated else Kept
    case Error => Activated
    case Fail => if swap then Unswappable else Activated
    case Again => Kept
  }

  predicate Written(s: Status, swap: bool) {
    s == Ok || s == Pend || (s == Fail && swap)
  }

  // Which pages go where, by status and backing, and which of them count as paged out.
  lemma FatesAre(s: Status, inLaundry: bool, swap: bool)
    ensures FateOf(s, inLaundry, swap) == InFlight <==> s == Pend
    ensures FateOf(s, inLaundry, swap) == Deactivated <==> (s == Ok || s == Bad) && inLaundry
    ensures FateOf(s, inLaundry, swap) == Unswappable <==> s == Fail && swap
    ensures FateOf(s, inLaundry, swap) == Activated <==> s == Error || (s == Fail && !swap)
    ensures FateOf(s, inLaundry, swap) == Kept <==> s == Again || ((s == Ok || s == Bad) && !inLaundry)
    ensures Written(s, swap) <==> s == Ok || FateOf(s, inLaundry, swap) in {InFlight, Unswappable}
  {
  }

  // How many of the first n pages count as paged out, and how many are still in flight.

  function CountWritten(ss: seq<Status>, swap: bool, n: nat): nat
    requires n <= |ss|
  {
    if n == 0 then 0 else CountWritten(ss, swap, n - 1) + (if Written(ss[n - 1], swap) then 1 else 0)
  }

  function CountPend(ss: seq<Status>, n: nat): nat
    requires n <= |ss|
  {
    if n == 0 then 0 else CountPend(ss, n - 1) + (if ss[n - 1] == Pend then 1 else 0)
  }

  // The pages from mreq to the first AGAIN at or after it, or to the end.
  ghost predicate RunLength(ss: seq<Status>, mreq: nat, runlen: int) {
    && 0 <= runlen <= |ss| - mreq
    && (forall i :: mreq <= i < mreq + runlen ==> ss[i] != Again)
    && (mreq + runlen < |ss| ==> ss[mreq + runlen] == Again)
  }

  ghost predicate Failed(ss: seq<Status>, from: nat, to: int) {
    exists i :: from <= i < to && i < |ss| && (ss[i] == Error || ss[i] == Fail)
  }

  // The switch over the status of one page: its fate, and whether it counts as paged out.
  method Complete(s: Status, inLaundry: bool, swap: bool) returns (fate: Fate, out: nat)
    ensures fate == FateOf(s, inLaundry, swap) && out == (if Written(s, swap) then 1 else 0)
  {
    fate, out := Kept, 0;
    match s {
      case Ok =>
        if inLaundry { fate := Deactivated; }
        out := 1;
      case Pend => fate, out := InFlight, 1;
      case Bad =>
        if inLaundry { fate := Deactivated; }
      case Error => fate := Activated;
      case Fail =>
        if swap {
          fate, out := Unswappable, 1;
        } else {
          fate := Activated;
        }
      case Again =>
    }
  }

  // What the flush has done to the first n pages: where they go, whether they stay busy, and whether their
  // changes are thrown away.
  ghost predicate Disposed(ss: seq<Status>, inLaundry: seq<bool>, swap: bool, n: nat, fates: seq<Fate>, busy: seq<bool>,
                           undirtied: seq<bool>)
    requires |inLaundry| == |ss| && n <= |ss|
  {
    && |fates| == |undirtied| == n && |busy| == |ss|
    && (forall i :: 0 <= i < n ==> fates[i] == FateOf(ss[i], inLaundry[i], swap) && (undirtied[i] <==> ss[i] == Bad))
    && forall i :: 0 <= i < |ss| ==> (busy[i] <==> i >= n || ss[i] == Pend)
  }

  // What it has counted: pages paged out, and paging in progress, on top of pip.
  predicate Counted(ss: seq<Status>, swap: bool, n: nat, out: nat, pip: nat, pip': int)
    requires n <= |ss|
  {
    out == CountWritten(ss, swap, n) && pip' == pip + CountPend(ss, n) + |ss| - n
  }

  // The part of the loop for page i that concerns the page.
  method FlushOne(ss: seq<Status>, inLaundry: seq<bool>, swap: bool, i: nat, fates: seq<Fate>, busy: seq<bool>,
                  undirtied: seq<bool>, out: nat, ghost pip: nat, pip1: int)
    returns (fates': seq<Fate>, busy': seq<bool>, undirtied': seq<bool>, out': nat, pip': int)
    requires |inLaundry| == |ss| && i < |ss|
    requires Disposed(ss, inLaundry, swap, i, fates, busy, undirtied) && Counted(ss, swap, i, out, pip, pip1)
    ensures Disposed(ss, inLaundry, swap, i + 1, fates', busy', undirtied') && Counted(ss, swap, i + 1, out', pip, pip')
  {
    var fate, more := Complete(ss[i], inLaundry[i], swap);
    fates', undirtied', out' := fates + [fate], undirtied + [ss[i] == Bad], out + more;
    busy', pip' := busy, pip1;
    if ss[i] != Pend {
      busy', pip' := busy[i := false], pip1 - 1;
    }
  }

  // vm_pageout_flush.  pip is object->paging_in_progress, busy the shared-busy marks it leaves, undirtied
  // the calls of vm_page_undirty.
  method PageoutFlush(ss: seq<Status>, inLaundry: seq<bool>, swap: bool, mreq: nat, pip: nat)
    returns (numpagedout: nat, runlen: int, eio: bool, fates: seq<Fate>, pip': int, busy: seq<bool>,
             undirtied: seq<bool>)
    requires |inLaundry| == |ss| && mreq <= |ss|
    ensures numpagedout == CountWritten(ss, swap, |ss|) && pip' == pip + CountPend(ss, |ss|)
    ensures RunLength(ss, mreq, runlen)
    ensures eio <==> Failed(ss, mreq, mreq + runlen)
    ensures Disposed(ss, inLaundry, swap, |ss|, fates, busy, undirtied)
  {
    var count := |ss|;
    busy := seq(count, _ => true);
    numpagedout, runlen, eio, fates, pip', undirtied := 0, count - mreq, false, [], pip + count, [];
    var i: nat := 0;
    while i < count
      invariant i <= count && Known(ss, i, mreq, runlen, eio)
      invariant Disposed(ss, inLaundry, swap, i, fates, busy, undirtied) && Counted(ss, swap, i, numpagedout, pip, pip')
    {
      fates, busy, undirtied, numpagedout, pip' :=
        FlushOne(ss, inLaundry, swap, i, fates, busy, undirtied, numpagedout, pip, pip');
      runlen, eio := Note(ss, i, mreq, runlen, eio);
      i := i + 1;
    }
    AllKnown(ss, mreq, runlen, eio);
  }

  // What is known of the run length and of failures in it after i pages.
  ghost predicate Known(ss: seq<Status>, i: nat, mreq: nat, runlen: int, eio: bool)
    requires i <= |ss|
  {
    && 0 <= runlen <= |ss| - mreq
    && (forall j :: mreq <= j < i && j < mreq + runlen ==> ss[j] != Again)
    && (mreq + runlen < |ss| ==> mreq + runlen < i && ss[mreq + runlen] == Again)
    && (eio <==> Failed(ss, mreq, if i < mreq + runlen then i else mreq + runlen))
  }

  // What the status of page i adds to it.
  method Note(ss: seq<Status>, i: nat, mreq: nat, runlen: int, eio: bool) returns (runlen': int, eio': bool)
    requires i < |ss| && mreq <= |ss| && Known(ss, i, mreq, runlen, eio)
    ensures Known(ss, i + 1, mreq, runlen', eio')
  {
    runlen', eio' := runlen, eio;
    if i >= mreq && i - mreq < runlen {
      if ss[i] == Error || ss[i] == Fail {
        eio' := true;
      } else if ss[i] == Again {
        runlen' := i - mreq;
      }
    }
  }

  lemma AllKnown(ss: seq<Status>, mreq: nat, runlen: int, eio: bool)
    requires Known(ss, |ss|, mreq, runlen, eio)
    ensures RunLength(ss, mreq, runlen) && (eio <==> Failed(ss, mreq, mreq + runlen))
  {
  }

  // Every page still in flight has been counted, and none is counted twice.
  lemma {:induction false} PendIsWritten(ss: seq<Status>, swap: bool, n: nat)
    requires n <= |ss|
    ensures CountPend(ss, n) <= CountWritten(ss, swap, n) <= n
  {
    if n > 0 {
      PendIsWritten(ss, swap, n - 1);
    }
  }
}
