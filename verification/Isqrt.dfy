/** isqrt of vm_pageout.c: the integer square root by one bit at a time. */
module Isqrt {
  const WORD: nat := 0x1_0000_0000

  function Pow2(k: nat): (p: nat)
    ensures p >= 1
  {
    if k == 0 then 1 else 2 * Pow2(k - 1)
  }

  // The square of the weight of the lowest of k digits; 0 if there is none.
  function Bit(k: nat): nat {
    if k == 0 then 0 else Pow2(k - 1) * Pow2(k - 1)
  }

  lemma QuarterOfBit(k: nat)
    requires k > 0
    ensures Bit(k) / 4 == Bit(k - 1) && Bit(k) > 0
  {
    Squares(1, Pow2(k - 1));
    if k > 1 {
      SquareOfDouble(Pow2(k - 2));
    }
  }

  lemma SquareOfDouble(h: nat)
    ensures (2 * h) * (2 * h) == 4 * (h * h)
  {
  }

  // The state after the digits above weight q: a is the root so far, num what is left of n.
  ghost predicate Partial(n: nat, num: int, root: int, a: nat, q: nat) {
    root == a * q && num == n - a * a && n < (a + q) * (a + q) && a + q <= 0x1_0000
  }

  // One digit of weight h: it is 1 exactly when num reaches root + bit, and no sum leaves the word.
  lemma Digit(n: nat, num: nat, root: nat, a: nat, h: nat, bit: nat)
    requires Partial(n, num, root, a, 2 * h) && bit == h * h && h > 0
    ensures root + bit < WORD
    ensures if num >= root + bit then Partial(n, num - (root + bit), root / 2 + bit, a + h, h)
            else Partial(n, num, root / 2, a, h)
  {
    var ah := a * h;
    assert root == 2 * ah;
    assert (a + h) * (a + h) == a * a + 2 * ah + bit;
    assert (a + 2 * h) * (a + 2 * h) == a * a + 4 * ah + 4 * bit;
    assert (a + h) * h == ah + bit;
    Squares(a + 2 * h, 0x1_0000);
    Squares(1, h);
  }

  // The weight of the first digit: the greatest power of four within n.
  method StartBit(n: nat) returns (bit: nat, ghost k: nat)
    requires n < WORD
    ensures bit == Bit(k) && Partial(n, n, 0, 0, Pow2(k))
  {
    bit, k := 0x4000_0000, 16;
    assert Pow2(8) == 256 && Pow2(15) == 0x8000 && Pow2(16) == 0x1_0000;
    ghost var square := 0x1_0000_0000;
    while bit > n
      invariant bit == Bit(k) && Pow2(k) <= 0x1_0000
      invariant square == Pow2(k) * Pow2(k) && n < square
      decreases bit
    {
      QuarterOfBit(k);
      square := bit;
      k := k - 1;
      bit := bit / 4;
    }
  }

  method Isqrt(n: nat) returns (root: nat)
    requires n < WORD
    ensures root * root <= n < (root + 1) * (root + 1)
  {
    var bit;
    ghost var k;
    bit, k := StartBit(n);
    root := 0;
    var num: nat := n;
    ghost var a: nat := 0;
    while bit != 0
      invariant bit == Bit(k) && Partial(n, num, root, a, Pow2(k))
      decreases bit
    {
      QuarterOfBit(k);
      k := k - 1;
      Digit(n, num, root, a, Pow2(k), bit);
      var tmp := root + bit;
      root := root / 2;
      if num >= tmp {
        num := num - tmp;
        root := root + bit;
        a := a + Pow2(k);
      }
      bit := bit / 4;
    }
    if k > 0 {
      QuarterOfBit(k);
    }
    NoDigitLeft(n, num, root, a);
  }

  lemma NoDigitLeft(n: nat, num: nat, root: nat, a: nat)
    requires Partial(n, num, root, a, 1)
    ensures root * root <= n < (root + 1) * (root + 1)
  {
  }

  lemma Squares(x: nat, y: nat)
    requires x <= y
    ensures x * x <= y * y
  {
  }

  // The root is the only number between whose square and that of its successor n lies.
  lemma RootUnique(n: nat, r: nat, s: nat)
    requires r * r <= n < (r + 1) * (r + 1) && s * s <= n < (s + 1) * (s + 1)
    ensures r == s
  {
    if r < s {
      Squares(r + 1, s);
    } else if s < r {
      Squares(s + 1, r);
    }
  }
}
