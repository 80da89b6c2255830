/** Powers of two and aligned blocks: the arithmetic shared by the memory modules. */
module Pow2 {

  function Pow(k: nat): (r: nat)
    ensures r >= 1
  {
    if k == 0 then 1 else 2 * Pow(k - 1)
  }

  /** Exclusive or, bit by bit on the binary expansions of its operands. */
  function Xor(x: nat, y: nat): nat
    decreases x + y
  {
    if x == 0 && y == 0 then 0
    else (if x % 2 == y % 2 then 0 else 1) + 2 * Xor(x / 2, y / 2)
  }

  /** The k low bits of x are clear. */
  predicate Aligned(x: nat, k: nat)
    decreases k
  {
    k == 0 || (x % 2 == 0 && Aligned(x / 2, k - 1))
  }

  /** x with bit k inverted: the frame number of the buddy of the order-k block at frame x. */
  function FlipBit(x: nat, k: nat): nat
    decreases k
  {
    if k == 0 then (if x % 2 == 0 then x + 1 else x - 1)
    else 2 * FlipBit(x / 2, k - 1) + x % 2
  }

  lemma PowDouble(k: nat)
    ensures Pow(k + 1) == 2 * Pow(k)
  {
  }

  lemma {:induction false} PowMono(j: nat, k: nat)
    requires j <= k
    ensures Pow(j) <= Pow(k)
    decreases k - j
  {
    if j < k {
      PowMono(j + 1, k);
    }
  }

  lemma {:induction false} XorZero(x: nat)
    ensures Xor(x, 0) == x
    decreases x
  {
    if x == 0 {
    } else {
      XorZero(x / 2);
    }
  }

  /** Exclusive or with the mask of bit k inverts that bit and no other. */
  lemma {:induction false} XorPow(x: nat, k: nat)
    ensures Xor(x, Pow(k)) == FlipBit(x, k)
    decreases k
  {
    if k == 0 {
      XorZero(x / 2);
      assert Xor(x, 1) == (if x % 2 == 1 then 0 else 1) + 2 * Xor(x / 2, 0);
    } else {
      XorPow(x / 2, k - 1);
    }
  }

  /** Inverting bit k + j of a number whose j low bits are clear inverts bit k of the rest. */
  lemma {:induction false} FlipShift(x: nat, k: nat, j: nat)
    ensures FlipBit(Pow(j) * x, k + j) == Pow(j) * FlipBit(x, k)
    decreases j
  {
    if j == 0 {
    } else {
      FlipShift(x, k, j - 1);
      TwiceProduct(Pow(j - 1), x);
      TwiceProduct(Pow(j - 1), FlipBit(x, k));
    }
  }

  lemma TwiceProduct(m: nat, x: nat)
    ensures (2 * m) * x == 2 * (m * x)
  {
  }

  /** Alignment to the low k bits is divisibility by the block size. */
  lemma {:induction false} AlignedDivides(x: nat, k: nat)
    ensures Aligned(x, k) <==> x % Pow(k) == 0
    decreases k
  {
    if k == 0 {
    } else {
      AlignedDivides(x / 2, k - 1);
      HalfMod(x, Pow(k - 1));
    }
  }

  lemma HalfMod(x: nat, m: nat)
    requires m > 0
    ensures x % (2 * m) == 0 <==> x % 2 == 0 && x / 2 % m == 0
  {
    var q := x / 2 / m;
    assert x / 2 == q * m + x / 2 % m;
    assert x == q * (2 * m) + (2 * (x / 2 % m) + x % 2);
    DivUnique(x, 2 * m, q, 2 * (x / 2 % m) + x % 2);
  }

  lemma MulMono(a: nat, b: nat, m: nat)
    requires a <= b
    ensures a * m <= b * m
  {
  }

  lemma DivUnique(x: nat, m: nat, q: nat, r: nat)
    requires m > 0 && r < m && x == q * m + r
    ensures x / m == q && x % m == r
  {
    var a := x / m;
    assert x == a * m + x % m;
    if a < q {
      MulMono(a + 1, q, m);
    } else if q < a {
      MulMono(q + 1, a, m);
    }
  }

  lemma {:induction false} AlignedWeaken(x: nat, j: nat, k: nat)
    requires j <= k && Aligned(x, k)
    ensures Aligned(x, j)
    decreases k
  {
    if j == 0 {
    } else {
      AlignedWeaken(x / 2, j - 1, k - 1);
    }
  }

  /** Aligned blocks are laminar: the smaller lies inside the larger or apart from it. */
  lemma {:induction false} Laminar(a: nat, j: nat, b: nat, k: nat)
    requires k <= j && Aligned(a, j) && Aligned(b, k)
    ensures (a <= b && b + Pow(k) <= a + Pow(j)) || b + Pow(k) <= a || a + Pow(j) <= b
    decreases k
  {
    if k == 0 {
    } else {
      Laminar(a / 2, j - 1, b / 2, k - 1);
    }
  }

  /** The buddy of an aligned block is the other half of the aligned block twice as large. */
  lemma {:induction false} BuddyFacts(x: nat, k: nat)
    requires Aligned(x, k)
    ensures var y := FlipBit(x, k);
            && Aligned(y, k) && FlipBit(y, k) == x
            && y == (if Aligned(x, k + 1) then x + Pow(k) else x - Pow(k))
            && Aligned(if x < y then x else y, k + 1)
            && (x < y <==> Aligned(x, k + 1))
    decreases k
  {
    if k == 0 {
      assert Aligned(x, 1) <==> x % 2 == 0;
      assert Aligned(FlipBit(x, 0), 1) <==> FlipBit(x, 0) % 2 == 0;
    } else {
      BuddyFacts(x / 2, k - 1);
      var y := FlipBit(x, k);
      assert y / 2 == FlipBit(x / 2, k - 1) && y % 2 == 0;
      assert Aligned(x, k + 1) <==> Aligned(x / 2, k);
      assert Aligned(y, k + 1) <==> Aligned(y / 2, k);
    }
  }
}
