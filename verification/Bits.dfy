/** Machine words of the run-queue status bitmap: rqb_word_t and the RQB_BIT and RQB_FFS macros. */
module Bits {
  const RQB_BPW: nat := 32

  function Fill(n: nat, b: bool): (s: seq<bool>)
    ensures |s| == n && forall k :: 0 <= k < n ==> s[k] == b
  {
    if n == 0 then [] else Fill(n - 1, b) + [b]
  }

  // A machine word, bit 0 first.
  type Word = w: seq<bool> | |w| == RQB_BPW witness Fill(RQB_BPW, false)

  const ZERO: Word := Fill(RQB_BPW, false)
  const ONE: Word := [true] + Fill(RQB_BPW - 1, false)
  const ONES: Word := Fill(RQB_BPW, true)

  function Or(a: Word, b: Word): (w: Word)
    ensures forall k :: 0 <= k < RQB_BPW ==> (w[k] <==> a[k] || b[k])
  {
    seq(RQB_BPW, (k: nat) requires k < RQB_BPW => a[k] || b[k])
  }

  function And(a: Word, b: Word): (w: Word)
    ensures forall k :: 0 <= k < RQB_BPW ==> (w[k] <==> a[k] && b[k])
  {
    seq(RQB_BPW, (k: nat) requires k < RQB_BPW => a[k] && b[k])
  }

  function Not(a: Word): (w: Word)
    ensures forall k :: 0 <= k < RQB_BPW ==> (w[k] <==> !a[k])
  {
    seq(RQB_BPW, (k: nat) requires k < RQB_BPW => !a[k])
  }

  // a << n; bits pushed out at the top are lost.
  function Shl(a: Word, n: nat): (w: Word)
    ensures forall k :: 0 <= k < RQB_BPW ==> (w[k] <==> k >= n && a[k - n])
  {
    seq(RQB_BPW, (k: nat) requires k < RQB_BPW => k >= n && a[k - n])
  }

  // RQB_BIT
  function Bit(k: nat): (b: Word)
    requires k < RQB_BPW
    ensures forall j :: 0 <= j < RQB_BPW ==> (b[j] <==> j == k)
  {
    Shl(ONE, k)
  }

  // RQB_FFS: index of the least set bit of a non-zero word.
  method FindFirstSet(w: Word) returns (r: nat)
    requires w != ZERO
    ensures r < RQB_BPW && w[r]
    ensures forall j :: 0 <= j < r ==> !w[j]
  {
    ghost var some :| 0 <= some < RQB_BPW && w[some];
    r := 0;
    while !w[r]
      invariant r <= some
      invariant forall j :: 0 <= j < r ==> !w[j]
      decreases some - r
    {
      r := r + 1;
    }
  }
}
