/** The status bits of a run queue (struct rqbits): RQB_LEN words, searched word by word. */
module StatusBits {
  import opened Bits

  const RQB_LEN: nat := 2
  const NBITS: nat := 64

  // Bit p of the status words: RQB_WORD(p) and RQB_BIT(p).
  predicate On(words: seq<Word>, p: nat)
    requires |words| == RQB_LEN && p < NBITS
  {
    words[p / RQB_BPW][p % RQB_BPW]
  }

  // The first set bit at or after lo, or -1.
  ghost predicate IsFirstOn(words: seq<Word>, lo: nat, p: int)
    requires |words| == RQB_LEN
  {
    && (p == -1 || (lo <= p < NBITS && On(words, p)))
    && forall q :: lo <= q < (if p == -1 then NBITS else p) ==> !On(words, q)
  }

  method Set(bits: array<Word>, p: nat)
    requires bits.Length == RQB_LEN && p < NBITS
    modifies bits
    ensures forall q :: 0 <= q < NBITS ==> (On(bits[..], q) <==> q == p || On(old(bits[..]), q))
  {
    bits[p / RQB_BPW] := Or(bits[p / RQB_BPW], Bit(p % RQB_BPW));
  }

  method Clear(bits: array<Word>, p: nat)
    requires bits.Length == RQB_LEN && p < NBITS
    modifies bits
    ensures forall q :: 0 <= q < NBITS ==> (On(bits[..], q) <==> q != p && On(old(bits[..]), q))
  {
    bits[p / RQB_BPW] := And(bits[p / RQB_BPW], Not(Bit(p % RQB_BPW)));
  }

  lemma WordBit(words: seq<Word>, i: nat, k: nat)
    requires |words| == RQB_LEN && i < RQB_LEN && k < RQB_BPW
    ensures On(words, RQB_BPW * i + k) <==> words[i][k]
  {
  }

  method First(bits: array<Word>) returns (pri: int)
    requires bits.Length == RQB_LEN
    ensures IsFirstOn(bits[..], 0, pri)
  {
    var i := 0;
    while i < RQB_LEN
      invariant 0 <= i <= RQB_LEN
      invariant forall q :: 0 <= q < RQB_BPW * i ==> !On(bits[..], q)
    {
      if bits[i] != ZERO {
        var b := FindFirstSet(bits[i]);
        pri := b + RQB_BPW * i;
        forall q | RQB_BPW * i <= q < pri ensures !On(bits[..], q) {
          WordBit(bits[..], i, q - RQB_BPW * i);
        }
        return;
      }
      forall q | RQB_BPW * i <= q < RQB_BPW * i + RQB_BPW ensures !On(bits[..], q) {
        WordBit(bits[..], i, q - RQB_BPW * i);
      }
      i := i + 1;
    }
    return -1;
  }

  // One pass of the loop of runq_findbit_from, from word start / RQB_BPW up; k is the least bit the mask keeps.
  method Pass(bits: array<Word>, start: nat, mask0: Word, ghost k0: nat) returns (pri: int, mask: Word, ghost k: nat)
    requires bits.Length == RQB_LEN && k0 < RQB_BPW
    requires forall j :: 0 <= j < RQB_BPW ==> (mask0[j] <==> k0 <= j)
    ensures start < NBITS ==> IsFirstOn(bits[..], RQB_BPW * (start / RQB_BPW) + k0, pri)
    ensures start < NBITS && pri == -1 ==> k == 0
    ensures start >= NBITS ==> pri == -1 && k == k0
    ensures k < RQB_BPW && (pri == -1 ==> forall j :: 0 <= j < RQB_BPW ==> (mask[j] <==> k <= j))
  {
    var i := start / RQB_BPW;
    ghost var lo := RQB_BPW * i + k0;
    mask, k := mask0, k0;
    while i < RQB_LEN
      invariant start / RQB_BPW <= i && (i <= RQB_LEN || i == start / RQB_BPW)
      invariant k == (if i == start / RQB_BPW then k0 else 0)
      invariant forall j :: 0 <= j < RQB_BPW ==> (mask[j] <==> k <= j)
      invariant forall q :: lo <= q < RQB_BPW * i && q < NBITS ==> !On(bits[..], q)
    {
      mask := And(bits[i], mask);
      if mask != ZERO {
        var b := FindFirstSet(mask);
        pri := b + RQB_BPW * i;
        forall q | RQB_BPW * i + k <= q < pri ensures !On(bits[..], q) {
          WordBit(bits[..], i, q - RQB_BPW * i);
        }
        WordBit(bits[..], i, b);
        return;
      }
      forall q | RQB_BPW * i + k <= q < RQB_BPW * i + RQB_BPW ensures !On(bits[..], q) {
        WordBit(bits[..], i, q - RQB_BPW * i);
      }
      mask, k := ONES, 0;
      i := i + 1;
    }
    pri := -1;
  }

  // runq_findbit_from on the words.  The mask is all ones once a word is finished, so the second pass
  // starts clean; a start beyond the last word runs no iteration and leaves its mask to word 0.
  method FirstFromStart(bits: array<Word>, start: nat) returns (pri: int)
    requires bits.Length == RQB_LEN && start < 256
    ensures start < NBITS ==>
      (exists p :: IsFirstOn(bits[..], start, p) && pri == p != -1)
      || (IsFirstOn(bits[..], start, -1) && IsFirstOn(bits[..], 0, pri))
    ensures start >= NBITS ==> IsFirstOn(bits[..], start % RQB_BPW, pri)
  {
    var mask := Shl(ONES, start % RQB_BPW);
    ghost var k := start % RQB_BPW;
    pri, mask, k := Pass(bits, start, mask, k);
    if pri != -1 || start == 0 {
      assert IsFirstOn(bits[..], start, pri);
      return;
    }
    pri, mask, k := Pass(bits, 0, mask, k);
  }
}
