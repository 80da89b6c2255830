/** Bitmaps as arrays of machine words. A word is given by its bits, the lowest first. */
module Bitmaps {
  const BITS_PER_LONG: nat := 64

  type Word = w: seq<bool> | |w| == 64 witness seq(64, i => false)

  const ZERO: Word := seq(64, i => false)

  function BitsToLongs(n: nat): (k: nat)
    ensures 64 * (k - 1) < n <= 64 * k
  {
    (n + 63) / 64
  }

  /** Bit n of the bitmap, 0 beyond its end. */
  predicate At(p: seq<Word>, n: nat) {
    n / 64 < |p| && p[n / 64][n % 64]
  }

  predicate AllOnes(w: Word) {
    forall i :: 0 <= i < 64 ==> w[i]
  }

  method GetBit(nr: nat, p: array<Word>) returns (b: bool)
    requires nr / 64 < p.Length
    ensures b == At(p[..], nr)
  {
    var nlongs, ilongs := nr / BITS_PER_LONG, nr % BITS_PER_LONG;
    b := p[nlongs][ilongs];
  }

  /** Writing bit nr changes that bit and no other. */
  method SetBit(nr: nat, p: array<Word>)
    requires nr / 64 < p.Length
    modifies p
    ensures forall n: nat :: At(p[..], n) <==> n == nr || At(old(p[..]), n)
    ensures p[..] == old(p[..])[nr / 64 := old(p[..])[nr / 64][nr % 64 := true]]
  {
    var nlongs, ilongs := nr / BITS_PER_LONG, nr % BITS_PER_LONG;
    p[nlongs] := p[nlongs][ilongs := true];
    forall n: nat
      ensures At(p[..], n) <==> n == nr || At(old(p[..]), n)
    {
      SamePlace(n, nr);
    }
  }

  method ClearBit(nr: nat, p: array<Word>)
    requires nr / 64 < p.Length
    modifies p
    ensures forall n: nat :: At(p[..], n) <==> n != nr && At(old(p[..]), n)
    ensures p[..] == old(p[..])[nr / 64 := old(p[..])[nr / 64][nr % 64 := false]]
  {
    var nlongs, ilongs := nr / BITS_PER_LONG, nr % BITS_PER_LONG;
    p[nlongs] := p[nlongs][ilongs := false];
    forall n: nat
      ensures At(p[..], n) <==> n != nr && At(old(p[..]), n)
    {
      SamePlace(n, nr);
    }
  }

  lemma SamePlace(m: nat, n: nat)
    ensures m / 64 == n / 64 && m % 64 == n % 64 <==> m == n
  {
  }

  lemma PlaceOf(e: nat, b: nat)
    requires b < 64
    ensures (64 * e + b) / 64 == e && (64 * e + b) % 64 == b
  {
  }

  /** The first bit from `start` on that is 1, or 0 if `invert`; `size` if there is none below that. */
  method FindNextBitHelper(p: array<Word>, size: nat, start: nat, invert: bool) returns (res: nat)
    requires 0 < size <= 64 * p.Length
    ensures res < size ==> start <= res && At(p[..], res) == !invert
    ensures res <= size
    ensures forall n: nat :: start <= n < res ==> At(p[..], n) == invert
  {
    var maxElem: int := (size - 1) / BITS_PER_LONG;
    var elem: nat := start / BITS_PER_LONG;
    var bit: nat := start % BITS_PER_LONG;
    res := start;
    while elem <= maxElem
      invariant bit < 64 && start <= res && (elem <= maxElem ==> res == 64 * elem + bit)
      invariant elem > maxElem ==> res >= size
      invariant forall n: nat :: start <= n < res && n < size ==> At(p[..], n) == invert
    {
      var maxBit: int := if elem < maxElem then BITS_PER_LONG - 1 else (size - 1) % BITS_PER_LONG;
      while bit <= maxBit
        invariant res == 64 * elem + bit && bit <= 64 && start <= res
        invariant forall n: nat :: start <= n < res && n < size ==> At(p[..], n) == invert
      {
        PlaceOf(elem, bit);
        var value := p[elem][bit];
        if if invert then !value else value {
          return res;
        }
        bit := bit + 1;
        res := res + 1;
      }
      elem := elem + 1;
      bit := 0;
    }
    return size;
  }
}
