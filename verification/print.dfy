/** Printing of numbers by the user library, and reading them back. */
module Print {

  const PRINT_BUF_LEN: nat := 64
  const WORD: nat := 0x1_0000_0000_0000_0000
  const HALF: int := 0x8000_0000_0000_0000

  datatype Flags = Flags(padZero: bool, padRight: bool)

  function Repeat(c: char, n: int): (s: string)
    ensures |s| == if n > 0 then n else 0
  {
    seq(if n > 0 then n else 0, i => c)
  }

  /** What prints writes: the string, padded to the width. */
  function Padded(s: string, width: int, flags: Flags): string {
    var fill := Repeat(if flags.padZero then '0' else ' ', width - |s|);
    if flags.padRight then s + fill else fill + s
  }

  /** The padding loop, which stands in prints twice. */
  method Pad(out: string, c: char, n: int, pc: nat) returns (out': string, pc': nat)
    ensures out' == out + Repeat(c, n) && pc' == pc + |Repeat(c, n)|
  {
    var rest := n;
    out', pc' := out, pc;
    while rest > 0
      invariant out' + Repeat(c, rest) == out + Repeat(c, n) && pc' == pc + |out'| - |out|
    {
      assert Repeat(c, rest) == [c] + Repeat(c, rest - 1);
      out' := out' + [c];
      pc' := pc' + 1;
      rest := rest - 1;
    }
    assert Repeat(c, rest) == "";
  }

  /** prints: appends to the output, and returns how many characters it wrote. */
  method Prints(out: string, s: string, width: int, flags: Flags) returns (out': string, pc: nat)
    ensures out' == out + Padded(s, width, flags) && pc == |Padded(s, width, flags)|
    ensures out <= out' && pc == |out'| - |out|
    ensures Filled(out'[|out|..], s, Short(width, s), if flags.padZero then '0' else ' ', flags.padRight)
  {
    var rest, padchar := width, ' ';
    if width > 0 {
      rest := if |s| >= width then 0 else width - |s|;
      if flags.padZero {
        padchar := '0';
      }
    }
    ghost var fill := Repeat(padchar, rest);
    assert fill == Repeat(if flags.padZero then '0' else ' ', width - |s|);
    out', pc := out, 0;
    if !flags.padRight {
      out', pc := Pad(out', padchar, rest, pc);
      rest := 0;
    }
    ghost var mark, count := out', pc;
    var i := 0;
    while i < |s|
      invariant 0 <= i <= |s| && out' == mark + s[..i] && pc == count + i
    {
      out' := out' + [s[i]];
      pc := pc + 1;
      i := i + 1;
    }
    assert s[..|s|] == s;
    ghost var mark2 := out';
    out', pc := Pad(out', padchar, rest, pc);
    assert flags.padRight ==> out' == out + (s + fill);
    assert !flags.padRight ==> Repeat(padchar, rest) == "" && out' == out + (fill + s);
  }

  // Digits.

  /** The bases that the format characters select. */
  type Base = b: nat | b == 8 || b == 10 || b == 16 witness 10

  function Quotient(u: nat, base: Base): nat {
    if base == 8 then u / 8 else if base == 10 then u / 10 else u / 16
  }

  function Remainder(u: nat, base: Base): nat {
    if base == 8 then u % 8 else if base == 10 then u % 10 else u % 16
  }

  function Times(base: Base, v: int): int {
    if base == 8 then 8 * v else if base == 10 then 10 * v else 16 * v
  }

  lemma Divides(u: nat, base: Base)
    ensures Quotient(u, base) == u / base && Remainder(u, base) == u % base && Remainder(u, base) < 16
  {
  }

  predicate LetBase(c: char) {
    c == 'a' || c == 'A'
  }

  function DigitChar(t: nat, letbase: char): char
    requires t < 16 && LetBase(letbase)
  {
    if t >= 10 then (t - 10 + letbase as int) as char else (t + '0' as int) as char
  }

  /** The digits of u, none for 0. */
  function Digits(u: nat, base: Base, letbase: char): string
    requires LetBase(letbase)
  {
    if u == 0 then ""
    else
      Digits(Quotient(u, base), base, letbase) + [DigitChar(Remainder(u, base), letbase)]
  }

  function DigitValue(c: char): int {
    if 'a' <= c <= 'f' then c as int - 'a' as int + 10
    else if 'A' <= c <= 'F' then c as int - 'A' as int + 10
    else c as int - '0' as int
  }

  /** The number that a string of digits stands for. */
  function Value(s: string, base: Base): int {
    if s == "" then 0 else Times(base, Value(s[..|s| - 1], base)) + DigitValue(s[|s| - 1])
  }

  lemma DigitBack(t: nat, letbase: char)
    requires t < 16 && LetBase(letbase)
    ensures DigitValue(DigitChar(t, letbase)) == t && DigitChar(t, letbase) != ' ' && DigitChar(t, letbase) != '-'
  {
  }

  /** A digit of the base, written with letters from letbase on. */
  predicate IsDigit(c: char, base: Base, letbase: char) {
    ('0' <= c <= '9' && c as int - '0' as int < base)
    || (letbase <= c && c as int - letbase as int + 10 < base)
  }

  /** Every character written for a number is a digit of its base, in the case asked for. */
  lemma {:induction false} DigitsCase(u: nat, base: Base, letbase: char)
    requires LetBase(letbase)
    ensures forall c :: c in Digits(u, base, letbase) ==> IsDigit(c, base, letbase)
  {
    if u == 0 {
    } else {
      DigitsCase(Quotient(u, base), base, letbase);
    }
  }

  /** Reading digits undoes writing them. */
  lemma {:induction false} DigitsBack(u: nat, base: Base, letbase: char)
    requires LetBase(letbase)
    ensures Value(Digits(u, base, letbase), base) == u
    ensures ' ' !in Digits(u, base, letbase) && '-' !in Digits(u, base, letbase)
    ensures u > 0 ==> Digits(u, base, letbase) != ""
  {
    if u == 0 {
    } else {
      DigitsBack(Quotient(u, base), base, letbase);
      DigitBack(Remainder(u, base), letbase);
      var s := Digits(u, base, letbase);
      assert s[..|s| - 1] == Digits(Quotient(u, base), base, letbase);
    }
  }

  /** How many digits a number has. */
  lemma {:induction false} DigitsFit(u: nat, base: Base, letbase: char, n: nat)
    requires LetBase(letbase) && u < Eight(n)
    ensures |Digits(u, base, letbase)| <= n
  {
    if u == 0 {
    } else {
      assert Quotient(u, base) <= u / 8;
      DigitsFit(Quotient(u, base), base, letbase, n - 1);
    }
  }

  function Eight(n: nat): nat {
    if n == 0 then 1 else 8 * Eight(n - 1)
  }

  lemma WordFits()
    ensures WORD <= Eight(22)
  {
    assert Eight(4) == 0x1000;
    assert Eight(8) == 0x100_0000;
    assert Eight(12) == 0x10_0000_0000;
    assert Eight(16) == 0x1_0000_0000_0000;
    assert Eight(20) == 0x1000_0000_0000_0000;
  }

  // Padding.

  /** r is s between n characters c and no other. */
  ghost predicate Filled(r: string, s: string, n: nat, c: char, right: bool) {
    && |r| == |s| + n
    && (right ==> r[..|s|] == s && forall k :: |s| <= k < |r| ==> r[k] == c)
    && (!right ==> r[n..] == s && forall k :: 0 <= k < n ==> r[k] == c)
  }

  /** How many places a string is short of the width. */
  function Short(width: int, s: string): nat {
    if width > |s| then width - |s| else 0
  }

  /**
    * A padded string is the string as it was, with the places it is short of the width filled up on its right if
    * PAD_RIGHT is set and on its left otherwise, by zeros if PAD_ZERO is set and by spaces otherwise.
    */
  lemma PaddedSides(s: string, width: int, flags: Flags)
    ensures Filled(Padded(s, width, flags), s, Short(width, s), if flags.padZero then '0' else ' ', flags.padRight)
  {
  }

  // Numbers.

  /** The signed number i as an unsigned word. */
  function Unsigned(i: int): nat
    requires -HALF <= i < HALF
  {
    if i < 0 then i + WORD else i
  }

  predicate Negative(i: int, base: Base, sign: bool) {
    sign && base == 10 && i < 0
  }

  /** The number that is printed: its own value with a sign, or else as an unsigned word. */
  function Shown(i: int, base: Base, sign: bool): int
    requires -HALF <= i < HALF
  {
    if Negative(i, base, sign) then i else Unsigned(i)
  }

  function Magnitude(i: int, base: Base, sign: bool): nat
    requires -HALF <= i < HALF
  {
    if Negative(i, base, sign) then -i else Unsigned(i)
  }

  /** The number without padding. */
  function Natural(i: int, base: Base, sign: bool, letbase: char): string
    requires -HALF <= i < HALF && LetBase(letbase)
  {
    if i == 0 then "0"
    else
      var d := Digits(Magnitude(i, base, sign), base, letbase);
      if Negative(i, base, sign) then "-" + d else d
  }

  /** What simple_outputi writes: a sign stands before padding zeros. */
  function Text(i: int, base: Base, sign: bool, width: int, flags: Flags, letbase: char): string
    requires -HALF <= i < HALF && LetBase(letbase)
  {
    if Negative(i, base, sign) && width != 0 && flags.padZero
    then "-" + Padded(Digits(-i, base, letbase), width - 1, flags)
    else Padded(Natural(i, base, sign, letbase), width, flags)
  }

  /** simple_outputi: the digits fill a buffer from its end. Negating the least number is taken to wrap around. */
  method SimpleOutputI(out: string, i: int, base: Base, sign: bool, width: int, flags: Flags, letbase: char)
    returns (out': string, pc: nat)
    requires -HALF <= i < HALF && LetBase(letbase)
    ensures out' == out + Text(i, base, sign, width, flags, letbase)
    ensures pc == |Text(i, base, sign, width, flags, letbase)|
  {
    hide Digits, Padded, Eight;
    if i == 0 {
      out', pc := Prints(out, "0", width, flags);
      return;
    }
    var buf := new char[PRINT_BUF_LEN](k => '\0');
    var neg, u := false, Unsigned(i);
    if sign && base == 10 && i < 0 {
      neg, u := true, -i;
    }
    WordFits();
    DigitsFit(u, base, letbase, 22);
    var s := FillDigits(buf, u, base, letbase);
    var before, w := out, width;
    var count := 0;
    ghost var d := Digits(u, base, letbase);
    if neg {
      if width != 0 && flags.padZero {
        before := before + "-";
        count := count + 1;
        w := w - 1;
      } else {
        s := s - 1;
        buf[s] := '-';
        assert buf[s..PRINT_BUF_LEN - 1] == "-" + d;
      }
    }
    var more;
    out', more := Prints(before, buf[s..PRINT_BUF_LEN - 1], w, flags);
    pc := count + more;
    assert out + "-" + Padded(d, w, flags) == out + ("-" + Padded(d, w, flags));
  }

  /** The digits of u at the end of the buffer, before the NUL; s is where they start. */
  method FillDigits(buf: array<char>, u: nat, base: Base, letbase: char) returns (s: nat)
    requires buf.Length == PRINT_BUF_LEN && LetBase(letbase) && |Digits(u, base, letbase)| <= 22
    modifies buf
    ensures PRINT_BUF_LEN - 1 - 22 <= s < PRINT_BUF_LEN && buf[s..PRINT_BUF_LEN - 1] == Digits(u, base, letbase)
  {
    s := PRINT_BUF_LEN - 1;
    buf[s] := '\0';
    var rest: nat := u;
    assert buf[s..PRINT_BUF_LEN - 1] == [];
    assert Digits(u, base, letbase) + [] == Digits(u, base, letbase);
    while rest > 0
      invariant |Digits(rest, base, letbase)| + (PRINT_BUF_LEN - 1 - s) <= 22 && s < PRINT_BUF_LEN
      invariant Digits(rest, base, letbase) + buf[s..PRINT_BUF_LEN - 1] == Digits(u, base, letbase)
    {
      Divides(rest, base);
      ghost var tail, more := buf[s..PRINT_BUF_LEN - 1], Digits(Quotient(rest, base), base, letbase);
      var t := rest % base;
      s := s - 1;
      buf[s] := DigitChar(t, letbase);
      rest := rest / base;
      assert buf[s..PRINT_BUF_LEN - 1] == [DigitChar(t, letbase)] + tail;
      assert more + ([DigitChar(t, letbase)] + tail) == more + [DigitChar(t, letbase)] + tail;
    }
    assert Digits(rest, base, letbase) == "" && "" + buf[s..PRINT_BUF_LEN - 1] == buf[s..PRINT_BUF_LEN - 1];
  }

  // Reading a printed number back.

  function Lead(s: string): string {
    if s != "" && s[0] == ' ' then Lead(s[1..]) else s
  }

  function Trail(s: string): string {
    if s != "" && s[|s| - 1] == ' ' then Trail(s[..|s| - 1]) else s
  }

  function Signed(s: string, base: Base): int {
    if s != "" && s[0] == '-' then -Value(s[1..], base) else Value(s, base)
  }

  /** Spaces around the number do not count. */
  function Parse(s: string, base: Base): int {
    Signed(Trail(Lead(s)), base)
  }

  lemma {:induction false} LeadSpaces(n: nat, s: string)
    requires ' ' !in s
    ensures Lead(Repeat(' ', n) + s) == s
  {
    if n > 0 {
      assert (Repeat(' ', n) + s)[1..] == Repeat(' ', n - 1) + s;
      LeadSpaces(n - 1, s);
    } else {
      assert Repeat(' ', 0) + s == s;
      assert s != "" ==> s[0] in s;
    }
  }

  lemma {:induction false} TrailSpaces(n: nat, s: string)
    requires ' ' !in s
    ensures Trail(s + Repeat(' ', n)) == s
  {
    var t := s + Repeat(' ', n);
    if n > 0 {
      assert t[..|t| - 1] == s + Repeat(' ', n - 1);
      TrailSpaces(n - 1, s);
    } else {
      assert t == s;
      assert s != "" ==> s[|s| - 1] in s;
    }
  }

  /** Padding with spaces is not read. */
  lemma ParseSpaces(s: string, n: nat, base: Base)
    requires ' ' !in s
    ensures Parse(Repeat(' ', n) + s, base) == Signed(s, base)
    ensures s != "" ==> Parse(s + Repeat(' ', n), base) == Signed(s, base)
  {
    LeadSpaces(n, s);
    TrailSpaces(0, s);
    assert s + Repeat(' ', 0) == s;
    TrailSpaces(n, s);
    if s != "" {
      assert s[0] in s && (s + Repeat(' ', n))[0] == s[0];
    }
  }

  lemma {:induction false} ZerosBefore(n: nat, s: string, base: Base)
    ensures Value(Repeat('0', n) + s, base) == Value(s, base)
    decreases |s|, n
  {
    var t := Repeat('0', n) + s;
    if s != "" {
      assert t[..|t| - 1] == Repeat('0', n) + s[..|s| - 1];
      ZerosBefore(n, s[..|s| - 1], base);
    } else if n > 0 {
      assert t[..|t| - 1] == Repeat('0', n - 1) + "";
      ZerosBefore(n - 1, "", base);
    } else {
      assert t == "";
    }
  }

  /** Every zero behind a number multiplies it by the base. */
  lemma {:induction false} ZerosBehind(n: nat, s: string, base: Base)
    requires Value(s, base) >= 0
    ensures Value(s + Repeat('0', n), base) >= (if n == 0 then 1 else 8) * Value(s, base)
    ensures n == 0 || Value(s, base) == 0 ==> Value(s + Repeat('0', n), base) == Value(s, base)
  {
    var t := s + Repeat('0', n);
    if n > 0 {
      assert t[..|t| - 1] == s + Repeat('0', n - 1) && t[|t| - 1] == '0';
      ZerosBehind(n - 1, s, base);
      assert Value(t, base) == Times(base, Value(s + Repeat('0', n - 1), base));
    } else {
      assert t == s;
    }
  }

  /**
    * What is written for a number: a minus sign if it is negative and printed with a sign in base 10, and its digits;
    * padding spaces stand outside, padding zeros between the sign and the digits or behind them.
    */
  lemma TextSides(i: int, base: Base, sign: bool, width: int, flags: Flags, letbase: char)
    requires -HALF <= i < HALF && LetBase(letbase)
    ensures var r := Text(i, base, sign, width, flags, letbase);
            var neg := sign && base == 10 && i < 0;
            var d := if i == 0 then "0" else Digits(if neg then -i else if i < 0 then i + WORD else i, base, letbase);
            if neg && flags.padZero then
              && r != "" && r[0] == '-'
              && Filled(r[1..], d, Short(width - 1, d), '0', flags.padRight)
            else
              var s := if neg then "-" + d else d;
              Filled(r, s, Short(width, s), if flags.padZero then '0' else ' ', flags.padRight)
  {
    hide Digits;
    var neg := sign && base == 10 && i < 0;
    var d := if i == 0 then "0" else Digits(if neg then -i else if i < 0 then i + WORD else i, base, letbase);
    PaddedSides(d, width, flags);
    PaddedSides(d, width - 1, flags);
    PaddedSides("-" + d, width, flags);
  }

  /** What is written is as wide as asked for, and no wider than it must be. */
  lemma TextWidth(i: int, base: Base, sign: bool, width: int, flags: Flags, letbase: char)
    requires -HALF <= i < HALF && LetBase(letbase)
    ensures var n := |Natural(i, base, sign, letbase)|;
            n <= 23 && |Text(i, base, sign, width, flags, letbase)| == if width > n then width else n
  {
    hide Digits, Eight;
    WordFits();
    DigitsFit(Magnitude(i, base, sign), base, letbase, 22);
  }

  lemma NaturalBack(i: int, base: Base, sign: bool, letbase: char)
    requires -HALF <= i < HALF && LetBase(letbase)
    ensures var s := Natural(i, base, sign, letbase);
            s != "" && ' ' !in s && Signed(s, base) == Shown(i, base, sign)
    ensures var d := Digits(Magnitude(i, base, sign), base, letbase);
            Value(d, base) == Magnitude(i, base, sign) && ' ' !in d && '-' !in d
  {
    var m := Magnitude(i, base, sign);
    DigitsBack(m, base, letbase);
    var d := Digits(m, base, letbase);
    hide Digits;
    assert d != "" ==> d[0] in d;
    assert ("-" + d)[1..] == d;
    assert Value("0", base) == 0 by {
      assert "0"[..0] == "";
    }
  }

  lemma Spaceless(s: string, base: Base)
    requires ' ' !in s
    ensures Parse(s, base) == Signed(s, base)
  {
    ParseSpaces(s, 0, base);
    assert Repeat(' ', 0) + s == s;
  }

  lemma NoSpaces(s: string, n: int)
    requires ' ' !in s
    ensures ' ' !in s + Repeat('0', n) && ' ' !in Repeat('0', n) + s && ' ' !in "-" + (s + Repeat('0', n))
            && ' ' !in "-" + (Repeat('0', n) + s)
  {
  }

  /** Zeros before the digits, after any sign, are not read either. */
  lemma LeadingZerosBack(i: int, base: Base, sign: bool, width: int, letbase: char)
    requires -HALF <= i < HALF && LetBase(letbase)
    ensures Parse(Text(i, base, sign, width, Flags(true, false), letbase), base) == Shown(i, base, sign)
  {
    hide Digits, Value, Parse, Padded, Natural;
    NaturalBack(i, base, sign, letbase);
    NotNegative(i, base, sign, letbase);
    var s, d := Natural(i, base, sign, letbase), Digits(Magnitude(i, base, sign), base, letbase);
    if Negative(i, base, sign) && width != 0 {
      SignedZeros(d, width - 1, base);
    } else if Negative(i, base, sign) {
      NoWidth(s);
      Spaceless(s, base);
    } else {
      PlainZeros(s, width, base);
    }
  }

  lemma NoWidth(s: string)
    ensures Padded(s, 0, Flags(true, false)) == s
  {
  }

  lemma SignedZeros(d: string, width: int, base: Base)
    requires ' ' !in d
    ensures Parse("-" + Padded(d, width, Flags(true, false)), base) == -Value(d, base)
  {
    var fill := Repeat('0', width - |d|);
    var t := "-" + Padded(d, width, Flags(true, false));
    hide Value, Parse;
    NoSpaces(d, width - |d|);
    ZerosBefore(|fill|, d, base);
    Spaceless(t, base);
    assert t[1..] == Repeat('0', |fill|) + d;
  }

  lemma PlainZeros(s: string, width: int, base: Base)
    requires s != "" && ' ' !in s && s[0] != '-'
    ensures Parse(Padded(s, width, Flags(true, false)), base) == Signed(s, base)
  {
    var fill := Repeat('0', width - |s|);
    var t := Padded(s, width, Flags(true, false));
    hide Value, Parse;
    NoSpaces(s, width - |s|);
    ZerosBefore(|fill|, s, base);
    Spaceless(t, base);
    assert t == Repeat('0', |fill|) + s;
    assert t[0] == '0' || t[0] == s[0];
  }

  lemma NotNegative(i: int, base: Base, sign: bool, letbase: char)
    requires -HALF <= i < HALF && LetBase(letbase)
    ensures Negative(i, base, sign) <==>
              Natural(i, base, sign, letbase) != "" && Natural(i, base, sign, letbase)[0] == '-'
  {
    NaturalBack(i, base, sign, letbase);
    hide Digits, Value;
    var d := Digits(Magnitude(i, base, sign), base, letbase);
    assert d != "" ==> d[0] in d;
  }

  lemma SpacesBack(i: int, base: Base, sign: bool, width: int, right: bool, letbase: char)
    requires -HALF <= i < HALF && LetBase(letbase)
    ensures Parse(Text(i, base, sign, width, Flags(false, right), letbase), base) == Shown(i, base, sign)
  {
    NaturalBack(i, base, sign, letbase);
    var s := Natural(i, base, sign, letbase);
    hide Digits, Value, Parse;
    var fill := Repeat(' ', width - |s|);
    assert fill == Repeat(' ', |fill|);
    ParseSpaces(s, |fill|, base);
  }

  lemma SignedZerosBehind(d: string, n: nat, base: Base)
    requires d != "" && ' ' !in d && Value(d, base) > 0
    ensures Parse("-" + (d + Repeat('0', n)), base) == -Value(d, base) <==> n == 0
  {
    hide Value, Parse;
    var t := "-" + (d + Repeat('0', n));
    NoSpaces(d, n);
    ZerosBehind(n, d, base);
    Spaceless(t, base);
    assert t[1..] == d + Repeat('0', n);
  }

  lemma PlainZerosBehind(s: string, n: nat, base: Base)
    requires s != "" && ' ' !in s && s[0] != '-' && Value(s, base) >= 0
    ensures Parse(s + Repeat('0', n), base) == Signed(s, base) <==> n == 0 || Value(s, base) == 0
  {
    hide Value, Parse;
    var t := s + Repeat('0', n);
    NoSpaces(s, n);
    ZerosBehind(n, s, base);
    Spaceless(t, base);
    assert t[0] == s[0];
  }

  /** Zeros behind the digits are read, so they change every number but 0. */
  lemma TrailingZerosBack(i: int, base: Base, sign: bool, width: int, letbase: char)
    requires -HALF <= i < HALF && LetBase(letbase)
    ensures Parse(Text(i, base, sign, width, Flags(true, true), letbase), base) == Shown(i, base, sign) <==>
            width <= |Natural(i, base, sign, letbase)| || i == 0
  {
    hide Digits, Value, Parse, Repeat;
    NaturalBack(i, base, sign, letbase);
    NotNegative(i, base, sign, letbase);
    var s, d := Natural(i, base, sign, letbase), Digits(Magnitude(i, base, sign), base, letbase);
    if Negative(i, base, sign) {
      assert Value("", base) == 0 by {
        EmptyValue(base);
      }
      SignedZerosBehind(d, if width != 0 && width - 1 > |d| then width - 1 - |d| else 0, base);
      Unpadded(d);
    } else {
      PlainZerosBehind(s, if width > |s| then width - |s| else 0, base);
    }
  }

  lemma EmptyValue(base: Base)
    ensures Value("", base) == 0
  {
  }

  lemma Unpadded(d: string)
    ensures d + Repeat('0', 0) == d && Padded("-" + d, 0, Flags(true, true)) == "-" + d
  {
  }

  /** Reading a printed number gives it back, exactly unless zeros are padded on its right. */
  lemma ReadBackExactly(i: int, base: Base, sign: bool, width: int, flags: Flags, letbase: char)
    requires -HALF <= i < HALF && LetBase(letbase)
    ensures Parse(Text(i, base, sign, width, flags, letbase), base) == Shown(i, base, sign) <==>
            !(flags.padZero && flags.padRight && width > |Natural(i, base, sign, letbase)| && i != 0)
  {
    hide *;
    if !flags.padZero {
      SpacesBack(i, base, sign, width, flags.padRight, letbase);
    } else if !flags.padRight {
      LeadingZerosBack(i, base, sign, width, letbase);
    } else {
      TrailingZerosBack(i, base, sign, width, letbase);
    }
  }

  /** An example: 5 in two places, padded with zeros on the right, reads as 50. */
  lemma FiveReadsAsFifty()
    ensures Text(5, 10, true, 2, Flags(true, true), 'a') == "50" && Parse("50", 10) == 50 != Shown(5, 10, true)
  {
    assert Digits(5, 10, 'a') == "5";
    assert Padded("5", 2, Flags(true, true)) == "50";
    Spaceless("50", 10);
    assert "50"[..1] == "5" && "5"[..0] == "";
    assert Value("5", 10) == 5;
  }
}
