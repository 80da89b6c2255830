/** Bit fields of machine words, read and written bit by bit. */
module Bits {
  import opened Pow2

  /** The len bits of w from bit lo upwards. */
  function Field(w: nat, lo: nat, len: nat): nat
    decreases lo, len
  {
    if lo > 0 then Field(w / 2, lo - 1, len)
    else if len == 0 then 0
    else w % 2 + 2 * Field(w / 2, 0, len - 1)
  }

  /** w with the len bits from bit lo upwards replaced by the low bits of v. */
  function SetField(w: nat, lo: nat, len: nat, v: nat): nat
    decreases lo, len
  {
    if lo > 0 then w % 2 + 2 * SetField(w / 2, lo - 1, len, v)
    else if len == 0 then w
    else v % 2 + 2 * SetField(w / 2, 0, len - 1, v / 2)
  }

  predicate Bit(w: nat, i: nat) {
    Field(w, i, 1) == 1
  }

  /** A field reads back what was stored in it, truncated to its width. */
  lemma {:induction false} GetSet(w: nat, lo: nat, len: nat, v: nat)
    ensures Field(SetField(w, lo, len, v), lo, len) == Field(v, 0, len)
    decreases lo, len
  {
    if lo > 0 {
      GetSet(w / 2, lo - 1, len, v);
    } else if len > 0 {
      GetSet(w / 2, 0, len - 1, v / 2);
    }
  }

  /** A field is not affected by a store to bits outside it. */
  lemma {:induction false} GetOther(w: nat, lo: nat, len: nat, v: nat, at: nat, n: nat)
    requires at + n <= lo || lo + len <= at
    ensures Field(SetField(w, lo, len, v), at, n) == Field(w, at, n)
    decreases lo, len, at, n
  {
    if lo > 0 {
      if at > 0 {
        GetOther(w / 2, lo - 1, len, v, at - 1, n);
      } else if n > 0 {
        GetOther(w / 2, lo - 1, len, v, 0, n - 1);
      }
    } else if len > 0 {
      if at > 0 {
        GetOther(w / 2, 0, len - 1, v / 2, at - 1, n);
      }
    }
  }

  /** A field is a shifted quotient, and a field from bit 0 a remainder. */
  lemma {:induction false} FieldDiv(w: nat, lo: nat, len: nat)
    ensures Field(w, lo, len) == w / Pow(lo) % Pow(len)
    decreases lo, len
  {
    hide Pow;
    PowZero();
    if lo > 0 {
      FieldDiv(w / 2, lo - 1, len);
      PowDouble(lo - 1);
      HalfDiv(w, Pow(lo - 1));
    } else if len > 0 {
      FieldDiv(w / 2, 0, len - 1);
      PowDouble(len - 1);
      HalfRem(w, Pow(len - 1));
    }
  }

  lemma PowZero()
    ensures Pow(0) == 1
  {
  }

  lemma HalfDiv(x: nat, m: nat)
    requires m > 0
    ensures x / (2 * m) == x / 2 / m
  {
    var q := x / 2 / m;
    assert x / 2 == q * m + x / 2 % m;
    assert x == q * (2 * m) + (2 * (x / 2 % m) + x % 2);
    DivUnique(x, 2 * m, q, 2 * (x / 2 % m) + x % 2);
  }

  lemma HalfRem(x: nat, m: nat)
    requires m > 0
    ensures x % (2 * m) == x % 2 + 2 * (x / 2 % m)
  {
    var q := x / 2 / m;
    assert x / 2 == q * m + x / 2 % m;
    assert x == q * (2 * m) + (2 * (x / 2 % m) + x % 2);
    DivUnique(x, 2 * m, q, 2 * (x / 2 % m) + x % 2);
  }

  lemma {:induction false} FieldBound(w: nat, lo: nat, len: nat)
    ensures Field(w, lo, len) < Pow(len)
    decreases lo, len
  {
    if lo > 0 {
      FieldBound(w / 2, lo - 1, len);
    } else if len > 0 {
      FieldBound(w / 2, 0, len - 1);
    }
  }

  /** A field is its low part and the field that follows it. */
  lemma {:induction false} FieldSplit(w: nat, lo: nat, a: nat, n: nat)
    ensures Field(w, lo, a + n) == Field(w, lo, a) + Pow(a) * Field(w, lo + a, n)
    decreases lo, a
  {
    if lo > 0 {
      FieldSplit(w / 2, lo - 1, a, n);
    } else if a > 0 {
      FieldSplit(w / 2, 0, a - 1, n);
      TwiceProduct(Pow(a - 1), Field(w / 2, a - 1, n));
    }
  }
}
