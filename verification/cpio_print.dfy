/** Numbers printed by the user library with %08X are what the archive reader takes them for. */
module CpioPrint {
  import C = Cpio
  import P = Print

  lemma SameDigit(d: nat)
    requires d < 16
    ensures P.DigitChar(d, 'A') == C.HexDigit(d)
  {
  }

  /** Digits with zeros before them are the n low digits of the number. */
  lemma {:induction false} PaddedDigits(u: nat, n: nat)
    requires u < C.Sixteen(n)
    ensures |P.Digits(u, 16, 'A')| <= n
    ensures P.Repeat('0', n - |P.Digits(u, 16, 'A')|) + P.Digits(u, 16, 'A') == C.Hex(u, n)
  {
    var s := P.Digits(u, 16, 'A');
    if n == 0 {
    } else if u == 0 {
      PaddedDigits(0, n - 1);
      SameDigit(0);
      assert P.Repeat('0', n) == P.Repeat('0', n - 1) + "0";
    } else {
      PaddedDigits(u / 16, n - 1);
      SameDigit(u % 16);
      var q := P.Digits(u / 16, 16, 'A');
      assert s == q + [P.DigitChar(u % 16, 'A')];
      assert P.Repeat('0', n - |s|) + s == P.Repeat('0', n - 1 - |q|) + q + [P.DigitChar(u % 16, 'A')];
    }
  }

  /** What %08X prints are the eight digits of the number, and hex8_u64 reads the number back. */
  lemma PrintedIsRead(u: nat)
    requires u < 0x1_0000_0000
    ensures P.Text(u, 16, false, 8, P.Flags(true, false), 'A') == C.Hex(u, 8)
    ensures C.HexSum(P.Text(u, 16, false, 8, P.Flags(true, false), 'A')) == u
  {
    hide P.Digits, C.Hex, C.HexSum, C.Sixteen;
    C.SixteenEight();
    PaddedDigits(u, 8);
    C.HexRoundTrip(u, 8);
    ZeroDigits();
    if u == 0 {
      assert P.Repeat('0', 7) + "0" == P.Repeat('0', 8) + "";
    }
  }

  lemma ZeroDigits()
    ensures P.Digits(0, 16, 'A') == ""
  {
  }
}
