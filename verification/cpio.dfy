/** The initial file archive in newc format: reading it, and that reading undoes writing. */
module Cpio {
  import opened Wrappers
  const HEADER_SIZE: nat := 110
  const MAGIC: string := "070701"
  const TRAILER: string := "TRAILER!!!"
  const FIELDS: nat := 13
  const FILESIZE: nat := 6
  const NAMESIZE: nat := 11
  const NUL: char := '\0'

  const WORD: nat := 0x1_0000_0000_0000_0000

  /** The thirteen numbers of a header, the name, and the contents. */
  datatype File = File(header: seq<nat>, name: string, data: string)

  // Hexadecimal numbers of eight digits.

  function HexValue(c: char): int {
    if 'A' <= c <= 'F' then c as int - 'A' as int + 10 else c as int - '0' as int
  }

  /** What hex8_u64 computes from the digits it has seen, in words of 64 bits. */
  function HexSum(s: string): (u: nat)
    ensures u < WORD
  {
    if s == [] then 0 else (16 * HexSum(s[..|s| - 1]) + HexValue(s[|s| - 1])) % WORD
  }

  /** hex8_u64. */
  method Hex8(s: string) returns (u: nat)
    requires |s| == 8
    ensures u == HexSum(s)
  {
    u := 0;
    var i := 0;
    while i < 8
      invariant 0 <= i <= 8 && u == HexSum(s[..i])
    {
      assert s[..i + 1][..i] == s[..i];
      var v := u * 16;
      if 'A' <= s[i] <= 'F' {
        u := (v + (s[i] as int - 'A' as int + 10)) % WORD;
      } else {
        u := (v + (s[i] as int - '0' as int)) % WORD;
      }
      i := i + 1;
    }
    assert s[..8] == s;
  }

  function HexDigit(d: nat): (c: char)
    requires d < 16
    ensures HexValue(c) == d
  {
    "0123456789ABCDEF"[d]
  }

  /** The n low hexadecimal digits of u, as printf writes them with %0nX. */
  function Hex(u: nat, n: nat): (s: string)
    ensures |s| == n
  {
    if n == 0 then "" else Hex(u / 16, n - 1) + [HexDigit(u % 16)]
  }

  function Sixteen(n: nat): nat {
    if n == 0 then 1 else 16 * Sixteen(n - 1)
  }

  lemma {:induction false} SixteenFits(n: nat)
    requires n <= 15
    ensures 16 * Sixteen(n) <= WORD
  {
    assert Sixteen(5) == 0x10_0000 && Sixteen(10) == 0x100_0000_0000 && Sixteen(15) == 0x1000_0000_0000_0000;
    SixteenGrows(n, 15);
  }

  lemma {:induction false} SixteenGrows(n: nat, m: nat)
    requires n <= m
    ensures Sixteen(n) <= Sixteen(m)
    decreases m
  {
    if n < m {
      SixteenGrows(n, m - 1);
    }
  }

  /** Reading undoes printing, for numbers that fit a word. */
  lemma {:induction false} HexRoundTrip(u: nat, n: nat)
    requires n <= 16 && u < Sixteen(n)
    ensures HexSum(Hex(u, n)) == u
  {
    if n == 0 {
    } else {
      var s := Hex(u, n);
      assert s[..n - 1] == Hex(u / 16, n - 1) && s[n - 1] == HexDigit(u % 16);
      HexRoundTrip(u / 16, n - 1);
      SixteenFits(n - 1);
    }
  }

  /** What the digits mean in either case. */
  function TrueValue(c: char): int {
    if 'a' <= c <= 'f' then c as int - 'a' as int + 10 else HexValue(c)
  }

  function TrueSum(s: string): int {
    if s == [] then 0 else 16 * TrueSum(s[..|s| - 1]) + TrueValue(s[|s| - 1])
  }

  /** A hexadecimal number, in either case. */
  ghost predicate Hexadecimal(s: string) {
    forall i :: 0 <= i < |s| ==> '0' <= s[i] <= '9' || 'A' <= s[i] <= 'F' || 'a' <= s[i] <= 'f'
  }

  ghost predicate NoLowerCase(s: string) {
    forall i :: 0 <= i < |s| ==> !('a' <= s[i] <= 'f')
  }

  /** Eight digits never wrap around. */
  lemma {:induction false} HexBound(s: string)
    requires Hexadecimal(s) && |s| <= 8
    ensures HexSum(s) <= 4 * Sixteen(|s|) - 4
    ensures s != [] ==> HexSum(s) == 16 * HexSum(s[..|s| - 1]) + HexValue(s[|s| - 1])
  {
    if s == [] {
    } else {
      HexBound(s[..|s| - 1]);
      SixteenFits(|s|);
      assert 0 <= HexValue(s[|s| - 1]) <= 54;
    }
  }

  /** A lower-case digit counts for more than it means. */
  lemma {:induction false} HexTooBig(s: string)
    requires Hexadecimal(s) && |s| <= 8
    ensures HexSum(s) >= TrueSum(s) && (HexSum(s) == TrueSum(s) <==> NoLowerCase(s))
  {
    hide HexSum;
    HexBound(s);
    if s == [] {
      NoDigits();
    } else {
      HexTooBig(s[..|s| - 1]);
      assert NoLowerCase(s) <==> NoLowerCase(s[..|s| - 1]) && !('a' <= s[|s| - 1] <= 'f');
    }
  }

  lemma NoDigits()
    ensures HexSum("") == 0
  {
  }

  /** hex8_u64 reads a hexadecimal number right exactly if it has no lower-case digits. */
  lemma HexExactly(s: string)
    requires |s| == 8 && Hexadecimal(s)
    ensures HexSum(s) == TrueSum(s) <==> NoLowerCase(s)
  {
    HexTooBig(s);
  }

  /** An example: ten in lower case. */
  lemma LowerCaseTen()
    ensures HexSum("0000000a") == 49 && TrueSum("0000000a") == 10
  {
    var s := "0000000a";
    assert s[..7] == seq(7, i => '0') && s[7] == 'a';
    HexZeros(7);
    HexTooBig(s[..7]);
  }

  lemma {:induction false} HexZeros(n: nat)
    ensures HexSum(seq(n, i => '0')) == 0
  {
    var s := seq(n, i => '0');
    if n == 0 {
    } else {
      assert s[..n - 1] == seq(n - 1, i => '0');
      HexZeros(n - 1);
    }
  }

  // Reading an archive from memory; the archive starts at offset 0 of `mem`, and `mem` at address `base`.

  function Align4Up(x: nat): (r: nat)
    ensures x <= r < x + 4 && r % 4 == 0
  {
    x / 4 * 4 + (if x % 4 != 0 then 4 else 0)
  }

  /** The offset of the next multiple of 4, as an address, from offset p on. */
  function Pad(base: nat, p: nat): nat {
    Align4Up(base + p) - base
  }

  /** The characters from p on, up to a NUL; None if there is none in memory. */
  function CString(mem: string, p: nat): Option<string>
    decreases |mem| - p
  {
    if p >= |mem| then None
    else if mem[p] == NUL then Some("")
    else
      var rest := CString(mem, p + 1);
      if rest == None then None else Some([mem[p]] + rest.value)
  }

  function Field(mem: string, p: nat, i: nat): nat
    requires i < FIELDS && p + HEADER_SIZE <= |mem|
  {
    HexSum(mem[p + 6 + 8 * i..p + 14 + 8 * i])
  }

  /** A result, unless the program stops at a wrong magic number or looks beyond the end of memory. */
  datatype Outcome<+T> = Done(value: T) | Stopped | Overrun

  /** Memory differs from the magic number somewhere before it ends. */
  ghost predicate WrongMagic(mem: string, p: nat) {
    exists k :: 0 <= k < |MAGIC| && p + k < |mem| && mem[p + k] != MAGIC[k]
  }

  /** strncmp of the magic number: whether it differs, from character k on. */
  function Differs(mem: string, p: nat, k: nat): (b: bool)
    requires k <= |MAGIC|
    ensures b <==> exists j :: k <= j < |MAGIC| && p + j < |mem| && mem[p + j] != MAGIC[j]
    decreases |MAGIC| - k
  {
    k < |MAGIC| && p + k < |mem| && (mem[p + k] != MAGIC[k] || Differs(mem, p, k + 1))
  }

  function Header(mem: string, p: nat): (h: Outcome<seq<nat>>)
    ensures h == Stopped <==> WrongMagic(mem, p)
    ensures h.Done? ==> p + HEADER_SIZE <= |mem| && |h.value| == FIELDS
  {
    if Differs(mem, p, 0) then Stopped
    else if p + HEADER_SIZE > |mem| then Overrun
    else Done(seq(FIELDS, i requires 0 <= i < FIELDS => Field(mem, p, i)))
  }

  /** One step of either loop: the end of the archive or a file. */
  datatype Item = End | Found(header: seq<nat>, name: string, data: nat, size: nat, next: nat)

  /** A name or file that does not end in memory counts as looking beyond it. */
  function ItemAt(mem: string, base: nat, p: nat): (r: Outcome<Item>)
    ensures r == Stopped <==> WrongMagic(mem, p)
    ensures r.Done? && r.value.Found? ==> p + HEADER_SIZE <= r.value.next && r.value.data + r.value.size <= |mem|
    ensures r.Done? && r.value.Found? ==> p + HEADER_SIZE <= |mem|
  {
    match Header(mem, p)
    case Stopped => Stopped
    case Overrun => Overrun
    case Done(h) =>
      var name := CString(mem, p + HEADER_SIZE);
      if name == None then Overrun
      else if name.value == TRAILER then Done(End)
      else
        var data := Pad(base, p + HEADER_SIZE + h[NAMESIZE]);
        var size := h[FILESIZE];
        if data + size <= |mem| then Done(Found(h, name.value, data, size, Pad(base, data + size))) else Overrun
  }

  /** cpio_extract: the files in order, or fewer when memory for the list runs out. */
  function ExtractFrom(mem: string, base: nat, p: nat, room: nat): Outcome<seq<File>>
    decreases room
  {
    if room == 0 then Done([])
    else
      match ItemAt(mem, base, p)
      case Stopped => Stopped
      case Overrun => Overrun
      case Done(End) => Done([])
      case Done(Found(header, name, data, size, next)) =>
        After([File(header, name, mem[data..data + size])], ExtractFrom(mem, base, next, room - 1))
  }

  /** cpio_extract_single after it has skipped the first character of its target. */
  function SingleFrom(mem: string, base: nat, p: nat, target: string): Outcome<Option<string>>
    decreases if p <= |mem| then |mem| - p + 1 else 0
  {
    match ItemAt(mem, base, p)
    case Stopped => Stopped
    case Overrun => Overrun
    case Done(End) => Done(None)
    case Done(Found(_, name, data, size, next)) =>
      if name == target then Done(Some(mem[data..data + size])) else SingleFrom(mem, base, next, target)
  }

  /** The contents of the first file of that name. */
  function Search(files: seq<File>, target: string): Option<string> {
    if files == [] then None
    else if files[0].name == target then Some(files[0].data)
    else Search(files[1..], target)
  }

  function After(files: seq<File>, rest: Outcome<seq<File>>): Outcome<seq<File>> {
    if rest.Done? then Done(files + rest.value) else rest
  }

  lemma AfterOne(files: seq<File>, f: File, rest: Outcome<seq<File>>)
    ensures After(files, After([f], rest)) == After(files + [f], rest)
  {
    if rest.Done? {
      assert files + ([f] + rest.value) == files + [f] + rest.value;
    }
  }

  lemma AfterNone(files: seq<File>, rest: Outcome<seq<File>>)
    ensures After(files, Done([])) == Done(files) && After([], rest) == rest
    ensures After(files, Stopped) == Stopped && After(files, Overrun) == Overrun
  {
    assert files + [] == files;
    assert rest.Done? ==> [] + rest.value == rest.value;
  }

  /** cpio_extract; `room` is how many file records can be allocated. */
  method CpioExtract(mem: string, base: nat, room: nat) returns (files: Outcome<seq<File>>)
    ensures files == ExtractFrom(mem, base, 0, room)
  {
    hide ItemAt, After;
    var gFiles := [];
    var p: nat := 0;
    var left: nat := room;
    AfterNone([], ExtractFrom(mem, base, 0, room));
    while left > 0
      invariant ExtractFrom(mem, base, 0, room) == After(gFiles, ExtractFrom(mem, base, p, left))
    {
      AfterNone(gFiles, Stopped);
      var step := ItemAt(mem, base, p);
      if step.Stopped? {
        return Stopped;
      }
      if step.Overrun? {
        return Overrun;
      }
      var item := step.value;
      if item.End? {
        break;
      }
      var file := File(item.header, item.name, mem[item.data..item.data + item.size]);
      AfterOne(gFiles, file, ExtractFrom(mem, base, item.next, left - 1));
      gFiles := gFiles + [file];
      p := item.next;
      left := left - 1;
    }
    AfterNone(gFiles, Stopped);
    return Done(gFiles);
  }

  /** cpio_extract_single; the first character of `target` is skipped, whatever it is. */
  method CpioExtractSingle(mem: string, base: nat, target: string) returns (r: Outcome<Option<string>>)
    requires target != ""
    ensures r == SingleFrom(mem, base, 0, target[1..])
  {
    hide ItemAt;
    var name := target[1..];
    var p: nat := 0;
    while true
      invariant SingleFrom(mem, base, 0, name) == SingleFrom(mem, base, p, name)
      decreases if p <= |mem| then |mem| - p + 1 else 0
    {
      var step := ItemAt(mem, base, p);
      if step.Stopped? {
        return Stopped;
      }
      if step.Overrun? {
        return Overrun;
      }
      var item := step.value;
      if item.End? {
        return Done(None);
      }
      if item.name == name {
        return Done(Some(mem[item.data..item.data + item.size]));
      }
      p := item.next;
    }
  }

  /** Looking up one file agrees with searching the list of all. */
  lemma {:induction false} SingleIsSearch(mem: string, base: nat, p: nat, room: nat, target: string)
    requires var files := ExtractFrom(mem, base, p, room); files.Done? && |files.value| < room
    ensures SingleFrom(mem, base, p, target) == Done(Search(ExtractFrom(mem, base, p, room).value, target))
    decreases room
  {
    hide Header, CString, Pad;
    var item := ItemAt(mem, base, p).value;
    if item.Found? {
      var files := ExtractFrom(mem, base, p, room).value;
      assert files[1..] == ExtractFrom(mem, base, item.next, room - 1).value;
      SingleIsSearch(mem, base, item.next, room - 1, target);
    }
  }

  // Writing an archive, as the format prescribes.

  function HexAll(h: seq<nat>): (s: string)
    ensures |s| == 8 * |h|
  {
    if h == [] then "" else Hex(h[0], 8) + HexAll(h[1..])
  }

  function Zeros(n: nat): (s: string)
    ensures |s| == n
  {
    seq(n, i => NUL)
  }

  /** A file that can be archived. */
  ghost predicate Archivable(f: File) {
    && |f.header| == FIELDS && (forall i :: 0 <= i < FIELDS ==> f.header[i] < 0x1_0000_0000)
    && f.header[FILESIZE] == |f.data| && f.header[NAMESIZE] == |f.name| + 1
    && NUL !in f.name
  }

  /** Header and name, padded, then the data, padded; the entry starts at a multiple of 4. */
  function Entry(f: File): string
    requires Archivable(f)
  {
    var head := Head(f);
    head + Zeros(Align4Up(|head|) - |head|) + f.data + Zeros(Align4Up(|f.data|) - |f.data|)
  }

  function Write(files: seq<File>, trailer: File): string
    requires forall i :: 0 <= i < |files| ==> Archivable(files[i])
    requires Archivable(trailer)
  {
    if files == [] then Entry(trailer) else Entry(files[0]) + Write(files[1..], trailer)
  }

  lemma {:induction false} HexAllAt(h: seq<nat>, i: nat)
    requires i < |h|
    ensures HexAll(h)[8 * i..8 * i + 8] == Hex(h[i], 8)
  {
    if i == 0 {
      assert HexAll(h) == Hex(h[0], 8) + HexAll(h[1..]);
    } else {
      HexAllAt(h[1..], i - 1);
      assert HexAll(h)[8..] == HexAll(h[1..]) && h[1..][i - 1] == h[i];
      assert HexAll(h)[8 * i..8 * i + 8] == HexAll(h)[8..][8 * (i - 1)..8 * (i - 1) + 8];
    }
  }

  lemma {:induction false} CStringIs(mem: string, p: nat, name: string)
    requires p + |name| < |mem| && mem[p..p + |name|] == name && mem[p + |name|] == NUL && NUL !in name
    ensures CString(mem, p) == Some(name)
    decreases |name|
  {
    if name == "" {
    } else {
      assert mem[p..p + |name|][0] == name[0] && name[0] in name;
      assert name == [name[0]] + name[1..];
      assert mem[p + 1..p + |name|] == mem[p..p + |name|][1..];
      CStringIs(mem, p + 1, name[1..]);
    }
  }

  lemma SixteenEight()
    ensures Sixteen(8) == 0x1_0000_0000
  {
    assert Sixteen(4) == 0x10000;
  }

  lemma HeaderIs(pre: string, h: seq<nat>, rest: string)
    requires |h| == FIELDS && forall i :: 0 <= i < FIELDS ==> h[i] < 0x1_0000_0000
    ensures Header(pre + (MAGIC + HexAll(h)) + rest, |pre|) == Done(h)
  {
    hide Hex, HexSum, HexAll, Sixteen;
    var mem, p, text := pre + (MAGIC + HexAll(h)) + rest, |pre|, MAGIC + HexAll(h);
    assert mem[p..p + HEADER_SIZE] == text;
    assert mem[p..p + 6] == text[..6] == MAGIC;
    forall i | 0 <= i < FIELDS
      ensures Field(mem, p, i) == h[i]
    {
      HexAllAt(h, i);
      assert text[6..] == HexAll(h);
      assert mem[p + 6 + 8 * i..p + 14 + 8 * i] == text[6..][8 * i..8 * i + 8];
      SixteenEight();
      HexRoundTrip(h[i], 8);
    }
    assert seq(FIELDS, i requires 0 <= i < FIELDS => Field(mem, p, i)) == h;
  }

  function Head(f: File): (s: string)
    requires Archivable(f)
    ensures |s| == HEADER_SIZE + |f.name| + 1
  {
    MAGIC + HexAll(f.header) + f.name + [NUL]
  }

  lemma HeadIs(pre: string, f: File, rest: string)
    requires Archivable(f)
    ensures Header(pre + Head(f) + rest, |pre|) == Done(f.header)
            && CString(pre + Head(f) + rest, |pre| + HEADER_SIZE) == Some(f.name)
  {
    var mem, q := pre + Head(f) + rest, |pre| + HEADER_SIZE;
    assert mem == pre + (MAGIC + HexAll(f.header)) + (f.name + [NUL] + rest);
    HeaderIs(pre, f.header, f.name + [NUL] + rest);
    hide HexAll, Header;
    assert mem[q..q + |f.name|] == f.name && mem[q + |f.name|] == NUL;
    CStringIs(mem, q, f.name);
  }

  /** What the loops see at the start of an entry. */
  lemma ItemIs(pre: string, f: File, rest: string, base: nat)
    requires Archivable(f) && (base + |pre|) % 4 == 0
    ensures |Entry(f)| % 4 == 0
    ensures var mem, r := pre + Entry(f) + rest, ItemAt(pre + Entry(f) + rest, base, |pre|);
            if f.name == TRAILER then r == Done(End)
            else
              && r.Done? && r.value.Found? && var x := r.value;
                 && x.header == f.header && x.name == f.name && x.next == |pre| + |Entry(f)|
                 && mem[x.data..x.data + x.size] == f.data
  {
    hide Head, HexAll, Header, CString, Align4Up, Pad;
    var head, p := Head(f), |pre|;
    var pad1 := Zeros(Align4Up(|head|) - |head|);
    var pad2 := Zeros(Align4Up(|f.data|) - |f.data|);
    var mem := pre + Entry(f) + rest;
    assert Entry(f) == head + pad1 + f.data + pad2;
    hide Entry;
    PadIs(base, p, |head|);
    var d := p + Align4Up(|head|);
    PadIs(base, d, |f.data|);
    HeadIs(pre, f, pad1 + f.data + pad2 + rest);
    assert mem == pre + head + (pad1 + f.data + pad2 + rest);
    assert mem == (pre + head + pad1) + f.data + (pad2 + rest);
    assert mem[d..d + |f.data|] == f.data;
  }

  lemma PadIs(base: nat, p: nat, n: nat)
    requires (base + p) % 4 == 0
    ensures Pad(base, p + n) == p + Align4Up(n) && (base + p + Align4Up(n)) % 4 == 0 && Align4Up(n) % 4 == 0
  {
  }

  /** Reading undoes writing: from an aligned start the files come back, in order, with their headers. */
  lemma {:induction false} RoundTrip(pre: string, files: seq<File>, trailer: File, post: string, base: nat, room: nat)
    requires (base + |pre|) % 4 == 0 && |files| < room
    requires forall i :: 0 <= i < |files| ==> Archivable(files[i]) && files[i].name != TRAILER
    requires Archivable(trailer) && trailer.name == TRAILER
    ensures ExtractFrom(pre + Write(files, trailer) + post, base, |pre|, room) == Done(files)
    decreases |files|
  {
    hide ItemAt, Entry;
    if files == [] {
      ItemIs(pre, trailer, post, base);
    } else {
      var f, rest := files[0], Write(files[1..], trailer);
      assert pre + Write(files, trailer) + post == pre + Entry(f) + (rest + post);
      ItemIs(pre, f, rest + post, base);
      assert pre + Write(files, trailer) + post == (pre + Entry(f)) + rest + post;
      RoundTrip(pre + Entry(f), files[1..], trailer, post, base, room - 1);
      assert files == [f] + files[1..];
    }
  }

  /** So a lookup in a written archive finds the first file of the name, or reports that there is none. */
  lemma LookupRoundTrip(files: seq<File>, trailer: File, post: string, base: nat, target: string)
    requires base % 4 == 0 && Archivable(trailer) && trailer.name == TRAILER
    requires forall i :: 0 <= i < |files| ==> Archivable(files[i]) && files[i].name != TRAILER
    ensures SingleFrom(Write(files, trailer) + post, base, 0, target) == Done(Search(files, target))
  {
    hide Write, ExtractFrom, SingleFrom, Search, Archivable;
    RoundTrip("", files, trailer, post, base, |files| + 1);
    assert "" + Write(files, trailer) + post == Write(files, trailer) + post;
    SingleIsSearch(Write(files, trailer) + post, base, 0, |files| + 1, target);
  }

  /** With memory for fewer records than there are files, the first ones are returned. */
  lemma {:induction false} FewerRecords(mem: string, base: nat, p: nat, room: nat, more: nat)
    requires room <= more && ExtractFrom(mem, base, p, more).Done?
    ensures var files := ExtractFrom(mem, base, p, more).value;
            ExtractFrom(mem, base, p, room) == Done(if room <= |files| then files[..room] else files)
    decreases room
  {
    hide ItemAt;
    var files := ExtractFrom(mem, base, p, more).value;
    if room == 0 {
    } else if ItemAt(mem, base, p).value.Found? {
      var next := ItemAt(mem, base, p).value.next;
      var rest := ExtractFrom(mem, base, next, more - 1).value;
      assert files == [files[0]] + rest;
      FewerRecords(mem, base, next, room - 1, more - 1);
      assert room <= |files| ==> files[..room] == [files[0]] + rest[..room - 1];
    }
  }
}
