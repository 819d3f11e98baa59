/** The decoder of compiled terminfo entries (parseTerminfo in
    terminfo/terminfo.go), following the legacy storage format of the
    ncurses term(5) manual page: a 12-byte header of little-endian 16-bit
    counts, the names section, the boolean section, the numbers section,
    the string-offset table and the string heap.

    The decoder is specified by the function Decode and implemented by the
    method ParseTerminfo, which advances an offset, fills the three maps in
    indexed loops and collects each string byte by byte, as the Go code
    does. Out-of-range indexing in the Go code is a runtime panic, so it is
    the Panic outcome here. */
module TerminfoDecode {
  import opened Outcomes

  type Byte = x: int | 0 <= x < 0x100
  type Uint16 = x: int | 0 <= x < 0x1_0000

  const HeaderLength: Uint16 := 12
  const Magic1: Byte := 0x1a
  const Magic2: Byte := 0x01
  const WrongFileMsg: string := "wrong terminfo file"

  /** The decoded entry: the Terminfo struct of the source. */
  datatype Terminfo = Terminfo(
    name: string,
    description: string,
    bools: map<string, bool>,
    numbers: map<string, Uint16>,
    strings: map<string, string>)

  /** The positional capability-name tables (GetTerminfoBooleanCodes,
      GetTerminfoNumericCodes, GetTerminfoStringCodes), which are data
      outside the decoder. */
  datatype CapabilityNames = CapabilityNames(
    booleans: seq<string>,
    numerics: seq<string>,
    strings: seq<string>)

  /** The four counts of the header. */
  datatype Header = Header(namesSize: Uint16, boolSize: Uint16, numCount: Uint16, strCount: Uint16)

  predicate Distinct(names: seq<string>) {
    forall i, j :: 0 <= i < j < |names| ==> names[i] != names[j]
  }

  // ---------------------------------------------------------------------
  // Bytes and Go's uint16 arithmetic

  /** binary.LittleEndian.Uint16 of the two bytes at i. */
  function LE16(c: seq<Byte>, i: nat): (v: Uint16)
    requires i + 2 <= |c|
  {
    c[i] as int + 0x100 * (c[i + 1] as int)
  }

  /** The low byte of the value is the byte at i, the high byte the one
      after it. */
  lemma LE16Bytes(c: seq<Byte>, i: nat)
    requires i + 2 <= |c|
    ensures LE16(c, i) % 0x100 == c[i] && LE16(c, i) / 0x100 == c[i + 1]
  {
  }

  /** A uint16 addition in Go: it wraps around. */
  function Add16(a: Uint16, b: Uint16): Uint16 {
    if a + b < 0x1_0000 then a + b else a + b - 0x1_0000
  }

  lemma Add16Wraps(a: Uint16, b: Uint16)
    ensures Add16(a, b) == (a + b) % 0x1_0000
  {
  }

  /** uint16(2 * n) in Go: twice n, wrapped around. */
  function Double16(n: Uint16): Uint16 {
    if n < 0x8000 then 2 * n else 2 * n - 0x1_0000
  }

  lemma Double16Wraps(n: Uint16)
    ensures Double16(n) == (2 * n) % 0x1_0000
    ensures Double16(n) % 2 == 0 && Double16(n) == 2 * (n % 0x8000)
  {
  }

  /** string(b) of a byte slice, one character per byte. */
  function Chars(b: seq<Byte>): (s: string)
    ensures |s| == |b| && forall i :: 0 <= i < |b| ==> s[i] as int == b[i]
  {
    seq(|b|, i requires 0 <= i < |b| => b[i] as char)
  }

  /** The bytes from p up to the first NUL, or to the end of the buffer. */
  function CString(c: seq<Byte>, p: nat): (s: string)
    ensures forall i :: 0 <= i < |s| ==> s[i] != 0 as char
    decreases |c| - p
  {
    if p >= |c| || c[p] == 0 then "" else [c[p] as char] + CString(c, p + 1)
  }

  /** CString(c, p) is exactly the bytes c[p..e] where e is the first NUL at
      or after p, or the end of the buffer. */
  lemma {:induction false} CStringUpToNul(c: seq<Byte>, p: nat)
    requires p <= |c|
    ensures var s := CString(c, p);
      && p + |s| <= |c|
      && s == Chars(c[p..p + |s|])
      && (p + |s| == |c| || c[p + |s|] == 0)
    decreases |c| - p
  {
    if p < |c| && c[p] != 0 {
      CStringUpToNul(c, p + 1);
      var s := CString(c, p + 1);
      assert c[p..p + 1 + |s|] == [c[p]] + c[p + 1..p + 1 + |s|];
    }
  }

  /** strings.Split(s, string(sep)): the pieces between the separators,
      empty pieces included. */
  function Split(s: string, sep: char): (r: seq<string>)
    ensures |r| >= 1
    decreases |s|
  {
    if s == [] then [[]]
    else
      var rest := Split(s[1..], sep);
      if s[0] == sep then [[]] + rest else [[s[0]] + rest[0]] + rest[1..]
  }

  /** strings.Join(parts, string(sep)). */
  function Join(parts: seq<string>, sep: char): string
    decreases |parts|
  {
    if |parts| == 0 then []
    else if |parts| == 1 then parts[0]
    else parts[0] + [sep] + Join(parts[1..], sep)
  }

  // ---------------------------------------------------------------------
  // The layout the header implies, with Go's uint16 arithmetic

  function ReadHeader(c: seq<Byte>): Header
    requires |c| >= 10
  {
    Header(LE16(c, 2), LE16(c, 4), LE16(c, 6), LE16(c, 8))
  }

  /** 12 + namesSectionSize, computed in uint16: the end of the names
      section and the start of the boolean section. */
  function NamesEnd(h: Header): Uint16 {
    Add16(HeaderLength, h.namesSize)
  }

  /** The number of boolean bytes read: int(booleanSectionSize) - 1 when
      positive. The last byte of the boolean section is never read. */
  function BoolReads(h: Header): nat {
    if h.boolSize == 0 then 0 else h.boolSize - 1
  }

  /** The numbers section starts after the whole boolean section, padded
      to an even offset. */
  function NumbersStart(h: Header): nat {
    var off := NamesEnd(h) as int + h.boolSize;
    off + off % 2
  }

  /** The loop `for i := 0; i < int(n*2); i += 2` runs this many times. */
  function Reads16(n: Uint16): (r: nat)
    ensures 2 * r == Double16(n)
  {
    if n < 0x8000 then n else n - 0x8000
  }

  function StringTableStart(h: Header): nat {
    NumbersStart(h) + Double16(h.numCount)
  }

  function HeapStart(h: Header): nat {
    StringTableStart(h) + Double16(h.strCount)
  }

  // ---------------------------------------------------------------------
  // The three capability sections, one loop iteration at a time;
  // None stands for a panic somewhere in the first n iterations.

  /** The boolean entries after n iterations: byte base+i nonzero is true,
      zero is false; a later entry with the same name overwrites. */
  function Bools(c: seq<Byte>, names: seq<string>, base: nat, n: nat): Option<map<string, bool>>
    decreases n
  {
    if n == 0 then Some(map[])
    else match Bools(c, names, base, n - 1)
      case None => None
      case Some(m) =>
        if base + n - 1 < |c| && n - 1 < |names| then Some(m[names[n - 1] := c[base + n - 1] != 0])
        else None
  }

  /** A numeric value that the decoder leaves out of the map. */
  predicate AbsentNumber(v: Uint16) {
    v == 0 || v == 0x3737 || v == 0xffff
  }

  /** The number read in iteration k of the numbers loop. */
  function NumberAt(c: seq<Byte>, base: nat, k: nat): Uint16
    requires base + 2 * k + 2 <= |c|
  {
    LE16(c, base + 2 * k)
  }

  function Numbers(c: seq<Byte>, names: seq<string>, base: nat, n: nat): Option<map<string, Uint16>>
    decreases n
  {
    if n == 0 then Some(map[])
    else match Numbers(c, names, base, n - 1)
      case None => None
      case Some(m) =>
        var k := n - 1;
        if base + 2 * k + 2 > |c| then None
        else if AbsentNumber(NumberAt(c, base, k)) then Some(m)
        else if k < |names| then Some(m[names[k] := NumberAt(c, base, k)])
        else None
  }

  /** The heap string for iteration k of the strings loop. */
  function HeapString(c: seq<Byte>, table: nat, heap: nat, k: nat): string
    requires table + 2 * k + 2 <= |c|
  {
    CString(c, heap + NumberAt(c, table, k))
  }

  function Strings(c: seq<Byte>, names: seq<string>, table: nat, heap: nat, n: nat): Option<map<string, string>>
    decreases n
  {
    if n == 0 then Some(map[])
    else match Strings(c, names, table, heap, n - 1)
      case None => None
      case Some(m) =>
        var k := n - 1;
        if table + 2 * k + 2 > |c| then None
        else if NumberAt(c, table, k) == 0xffff then Some(m)
        else if heap + NumberAt(c, table, k) > |c| then None
        else if k < |names| then Some(m[names[k] := HeapString(c, table, heap, k)])
        else None
  }

  // ---------------------------------------------------------------------
  // The whole decoder

  /** parseTerminfo as a function of the file contents and the name tables. */
  function Decode(c: seq<Byte>, names: CapabilityNames): Result<Terminfo> {
    if |c| == 0 then Panic
    else if c[0] != Magic1 && |c| < 2 then Panic
    else if c[0] != Magic1 && c[1] != Magic2 then Err(WrongFileMsg)
    else if |c| < 10 then Panic
    else
      var h := ReadHeader(c);
      if !(HeaderLength <= NamesEnd(h) <= |c|) then Panic
      else
        var tokens := Split(Chars(c[HeaderLength..NamesEnd(h)]), '|');
        if |tokens| < 2 then Panic
        else DecodeSections(c, names, h, tokens[0], tokens[1])
  }

  /** The boolean, numbers and strings sections, once the names are read. */
  function DecodeSections(c: seq<Byte>, names: CapabilityNames, h: Header, name: string, description: string): Result<Terminfo> {
    var bools := Bools(c, names.booleans, NamesEnd(h), BoolReads(h));
    var numbers := Numbers(c, names.numerics, NumbersStart(h), Reads16(h.numCount));
    var strings := Strings(c, names.strings, StringTableStart(h), HeapStart(h), Reads16(h.strCount));
    if bools.None? || numbers.None? || strings.None? then Panic
    else Ok(Terminfo(name, description, bools.value, numbers.value, strings.value))
  }

  // ---------------------------------------------------------------------
  // A panic in one iteration is a panic of the whole loop

  lemma {:induction false} BoolsPanicStays(c: seq<Byte>, names: seq<string>, base: nat, n: nat, n': nat)
    requires n <= n' && Bools(c, names, base, n).None?
    ensures Bools(c, names, base, n').None?
    decreases n'
  {
    if n < n' {
      BoolsPanicStays(c, names, base, n, n' - 1);
    }
  }

  lemma {:induction false} NumbersPanicStays(c: seq<Byte>, names: seq<string>, base: nat, n: nat, n': nat)
    requires n <= n' && Numbers(c, names, base, n).None?
    ensures Numbers(c, names, base, n').None?
    decreases n'
  {
    if n < n' {
      NumbersPanicStays(c, names, base, n, n' - 1);
    }
  }

  lemma {:induction false} StringsPanicStays(c: seq<Byte>, names: seq<string>, table: nat, heap: nat, n: nat, n': nat)
    requires n <= n' && Strings(c, names, table, heap, n).None?
    ensures Strings(c, names, table, heap, n').None?
    decreases n'
  {
    if n < n' {
      StringsPanicStays(c, names, table, heap, n, n' - 1);
    }
  }

  // ---------------------------------------------------------------------
  // The imperative decoder, one method per loop of parseTerminfo

  /** The boolean loop: count bytes from base, each stored under its name. */
  method ReadBools(c: seq<Byte>, names: seq<string>, base: nat, count: nat) returns (r: Option<map<string, bool>>)
    ensures r == Bools(c, names, base, count)
  {
    var bools: map<string, bool> := map[];
    var i: nat := 0;
    while i < count
      invariant i <= count
      invariant Bools(c, names, base, i) == Some(bools)
    {
      if base + i + 1 > |c| || i >= |names| {
        BoolsPanicStays(c, names, base, i + 1, count);
        return None;
      }
      bools := bools[names[i] := c[base + i] != 0];
      i := i + 1;
    }
    return Some(bools);
  }

  /** The numbers loop: width bytes of little-endian values from base. */
  method ReadNumbers(c: seq<Byte>, names: seq<string>, base: nat, width: Uint16) returns (r: Option<map<string, Uint16>>)
    requires width % 2 == 0
    ensures r == Numbers(c, names, base, width / 2)
  {
    var numbers: map<string, Uint16> := map[];
    var numbericIndex: nat := 0;
    var i: nat := 0;
    while i < width
      invariant i == 2 * numbericIndex && i <= width
      invariant Numbers(c, names, base, numbericIndex) == Some(numbers)
    {
      if base + i + 2 > |c| {
        NumbersPanicStays(c, names, base, numbericIndex + 1, width / 2);
        return None;
      }
      var val := LE16(c, base + i);
      assert val == NumberAt(c, base, numbericIndex);
      if val != 0 && val != 0x3737 && val != 0xffff {
        if numbericIndex >= |names| {
          NumbersPanicStays(c, names, base, numbericIndex + 1, width / 2);
          return None;
        }
        numbers := numbers[names[numbericIndex] := val];
      }
      i := i + 2;
      numbericIndex := numbericIndex + 1;
    }
    return Some(numbers);
  }

  /** The inner loop over the heap: the bytes from start up to a NUL. */
  method ReadCString(c: seq<Byte>, start: nat) returns (s: string)
    requires start <= |c|
    ensures s == CString(c, start)
  {
    s := "";
    var j := start;
    while j < |c| && c[j] != 0
      invariant start <= j <= |c|
      invariant CString(c, start) == s + CString(c, j)
      decreases |c| - j
    {
      s := s + [c[j] as char];
      j := j + 1;
    }
  }

  /** The strings loop: width bytes of offsets from table into the heap. */
  method ReadStrings(c: seq<Byte>, names: seq<string>, table: nat, heap: nat, width: Uint16)
    returns (r: Option<map<string, string>>)
    requires width % 2 == 0
    ensures r == Strings(c, names, table, heap, width / 2)
  {
    var strings: map<string, string> := map[];
    var stringIndex: nat := 0;
    var i: nat := 0;
    while i < width
      invariant i == 2 * stringIndex && i <= width
      invariant Strings(c, names, table, heap, stringIndex) == Some(strings)
    {
      if table + i + 2 > |c| {
        StringsPanicStays(c, names, table, heap, stringIndex + 1, width / 2);
        return None;
      }
      var stringTableOffset := LE16(c, table + i);
      assert stringTableOffset == NumberAt(c, table, stringIndex);
      if stringTableOffset != 0xffff {
        if heap + stringTableOffset > |c| {
          StringsPanicStays(c, names, table, heap, stringIndex + 1, width / 2);
          return None;
        }
        var termCapabilityStr := ReadCString(c, heap + stringTableOffset);
        if stringIndex >= |names| {
          StringsPanicStays(c, names, table, heap, stringIndex + 1, width / 2);
          return None;
        }
        strings := strings[names[stringIndex] := termCapabilityStr];
      }
      i := i + 2;
      stringIndex := stringIndex + 1;
    }
    return Some(strings);
  }

  /** parseTerminfo: validates the magic, reads the header, splits the
      names, then fills the boolean, numeric and string maps in order. */
  method ParseTerminfo(c: seq<Byte>, names: CapabilityNames) returns (r: Result<Terminfo>)
    ensures r == Decode(c, names)
  {
    if |c| == 0 {
      return Panic;
    }
    if c[0] != Magic1 {
      if |c| < 2 {
        return Panic;
      }
      if c[1] != Magic2 {
        return Err(WrongFileMsg);
      }
    }
    if |c| < 10 {
      return Panic;
    }
    var namesSectionSize := LE16(c, 2);
    var booleanSectionSize := LE16(c, 4);
    var shortIntsSectionSize := LE16(c, 6);
    var offsetsNumber := LE16(c, 8);
    var h := Header(namesSectionSize, booleanSectionSize, shortIntsSectionSize, offsetsNumber);
    assert h == ReadHeader(c);

    var namesEnd := Add16(HeaderLength, namesSectionSize);
    if !(HeaderLength <= namesEnd <= |c|) {
      return Panic;
    }
    var terminalName := Split(Chars(c[HeaderLength..namesEnd]), '|');
    if |terminalName| < 2 {
      return Panic;
    }
    r := ReadSections(c, names, h, terminalName[0], terminalName[1]);
  }

  /** The rest of parseTerminfo, from the end of the names section: the
      boolean, numeric and string maps in order, at the offsets the header
      h implies. */
  method ReadSections(c: seq<Byte>, names: CapabilityNames, h: Header, name: string, description: string) returns (r: Result<Terminfo>)
    ensures r == DecodeSections(c, names, h, name, description)
  {
    var offset: nat := Add16(HeaderLength, h.namesSize);
    var bools := ReadBools(c, names.booleans, offset, if h.boolSize == 0 then 0 else h.boolSize - 1);
    assert bools == Bools(c, names.booleans, NamesEnd(h), BoolReads(h));

    offset := offset + h.boolSize + (offset + h.boolSize) % 2;
    assert offset == NumbersStart(h);
    Double16Wraps(h.numCount);
    var numbers := ReadNumbers(c, names.numerics, offset, Double16(h.numCount));
    assert numbers == Numbers(c, names.numerics, NumbersStart(h), Reads16(h.numCount));

    offset := offset + Double16(h.numCount);
    var stringTableStart := offset + Double16(h.strCount);
    assert offset == StringTableStart(h) && stringTableStart == HeapStart(h);
    Double16Wraps(h.strCount);
    var strings := ReadStrings(c, names.strings, offset, stringTableStart, Double16(h.strCount));
    assert strings == Strings(c, names.strings, StringTableStart(h), HeapStart(h), Reads16(h.strCount));

    if bools.None? || numbers.None? || strings.None? {
      return Panic;
    }
    return Ok(Terminfo(name, description, bools.value, numbers.value, strings.value));
  }
}
