/** What the terminfo decoder promises: the magic check, the names, and the
    contents of the boolean, numeric and string maps, each stated against
    the bytes of the file. */
module TerminfoDecodeFacts {
  import opened Outcomes
  import opened TerminfoDecode

  // ---------------------------------------------------------------------
  // strings.Split on one separator character

  /** Joining the pieces with the separator gives back the input. */
  lemma {:induction false} SplitJoin(s: string, sep: char)
    ensures Join(Split(s, sep), sep) == s
    decreases |s|
  {
    if s != [] {
      var rest := Split(s[1..], sep);
      SplitJoin(s[1..], sep);
      if s[0] == sep {
        assert Split(s, sep)[1..] == rest;
      } else if |rest| > 1 {
        var p := Split(s, sep);
        assert p[1..] == rest[1..];
        calc {
          Join(p, sep);
          ([s[0]] + rest[0]) + [sep] + Join(rest[1..], sep);
          [s[0]] + (rest[0] + [sep] + Join(rest[1..], sep));
          [s[0]] + Join(rest, sep);
        }
      }
    }
  }

  /** No piece contains the separator. */
  lemma {:induction false} SplitPiecesLackSep(s: string, sep: char)
    ensures forall i :: 0 <= i < |Split(s, sep)| ==> sep !in Split(s, sep)[i]
    decreases |s|
  {
    if s != [] {
      SplitPiecesLackSep(s[1..], sep);
      var rest := Split(s[1..], sep);
      var p := Split(s, sep);
      if s[0] != sep {
        forall i | 0 <= i < |p| ensures sep !in p[i] {
          if i == 0 {
            assert p[0] == [s[0]] + rest[0];
          } else {
            assert p[i] == rest[i];
          }
        }
      } else {
        forall i | 0 <= i < |p| ensures sep !in p[i] {
          if i > 0 {
            assert p[i] == rest[i - 1];
          }
        }
      }
    }
  }

  /** There is a second piece exactly when the separator occurs. */
  lemma {:induction false} SplitHasSecondPiece(s: string, sep: char)
    ensures |Split(s, sep)| >= 2 <==> sep in s
    decreases |s|
  {
    if s != [] {
      SplitHasSecondPiece(s[1..], sep);
      assert s == [s[0]] + s[1..];
    }
  }

  /** The first two pieces are the text before the first separator and the
      text between the first and the second (or the end). */
  lemma SplitFirstTwo(s: string, sep: char)
    requires |Split(s, sep)| >= 2
    ensures var p := Split(s, sep); var a, b := p[0], p[1];
      && sep !in a && sep !in b
      && |a| + 1 + |b| <= |s|
      && s[..|a|] == a && s[|a|] == sep && s[|a| + 1..|a| + 1 + |b|] == b
      && (|a| + 1 + |b| == |s| || s[|a| + 1 + |b|] == sep)
  {
    var p := Split(s, sep);
    SplitJoin(s, sep);
    SplitPiecesLackSep(s, sep);
    var tail := Join(p[1..], sep);
    assert s == p[0] + [sep] + tail;
    if |p| == 2 {
      assert tail == p[1];
    } else {
      assert p[1..][1..] == p[2..];
      assert tail == p[1] + [sep] + Join(p[2..], sep);
    }
    assert s[..|p[0]|] == p[0];
    assert s[|p[0]| + 1..] == tail;
  }

  // ---------------------------------------------------------------------
  // The three sections

  /** After n boolean reads the keys are the first n names and each value
      says whether its byte is nonzero (zero bytes are stored as false). */
  lemma {:induction false} BoolsContent(c: seq<Byte>, names: seq<string>, base: nat, n: nat)
    requires Distinct(names) && Bools(c, names, base, n).Some?
    ensures n <= |names| && (n > 0 ==> base + n <= |c|)
    ensures var m := Bools(c, names, base, n).value;
      && (forall key :: key in m <==> key in names[..n])
      && (forall i :: 0 <= i < n ==> m[names[i]] == (c[base + i] != 0))
    decreases n
  {
    if n > 0 {
      BoolsContent(c, names, base, n - 1);
      var m0 := Bools(c, names, base, n - 1).value;
      var m := Bools(c, names, base, n).value;
      assert m == m0[names[n - 1] := c[base + n - 1] != 0];
      assert names[..n] == names[..n - 1] + [names[n - 1]];
      forall i | 0 <= i < n
        ensures m[names[i]] == (c[base + i] != 0)
      {
        if i < n - 1 {
          assert names[i] != names[n - 1];
        }
      }
    }
  }

  /** After n numeric reads a name is present exactly when its value is not
      one of the absent markers, and then holds that value; a value that is
      stored always has a name. */
  lemma {:induction false} NumbersContent(c: seq<Byte>, names: seq<string>, base: nat, n: nat)
    requires Distinct(names) && Numbers(c, names, base, n).Some?
    ensures n > 0 ==> base + 2 * n <= |c|
    ensures var m := Numbers(c, names, base, n).value;
      && (forall k :: 0 <= k < n && !AbsentNumber(NumberAt(c, base, k)) ==> k < |names|)
      && (forall k :: 0 <= k < n && k < |names| ==> (names[k] in m <==> !AbsentNumber(NumberAt(c, base, k))))
      && (forall k :: 0 <= k < n && k < |names| && names[k] in m ==> m[names[k]] == NumberAt(c, base, k))
      && (forall key :: key in m ==> exists k :: 0 <= k < n && k < |names| && names[k] == key)
    decreases n
  {
    if n > 0 {
      NumbersContent(c, names, base, n - 1);
    }
  }

  /** After n string reads a name is absent exactly when its offset is
      0xffff; otherwise it holds the heap bytes from its offset to the
      next NUL, so no stored string contains a NUL. */
  lemma {:induction false} StringsContent(c: seq<Byte>, names: seq<string>, table: nat, heap: nat, n: nat)
    requires Distinct(names) && Strings(c, names, table, heap, n).Some?
    ensures n > 0 ==> table + 2 * n <= |c|
    ensures var m := Strings(c, names, table, heap, n).value;
      && (forall k :: 0 <= k < n && NumberAt(c, table, k) != 0xffff ==> k < |names| && heap + NumberAt(c, table, k) <= |c|)
      && (forall k :: 0 <= k < n && k < |names| ==> (names[k] in m <==> NumberAt(c, table, k) != 0xffff))
      && (forall k :: 0 <= k < n && k < |names| && names[k] in m ==> m[names[k]] == HeapString(c, table, heap, k))
      && (forall key :: key in m ==> exists k :: 0 <= k < n && k < |names| && names[k] == key)
      && (forall key :: key in m ==> 0 as char !in m[key])
    decreases n
  {
    if n > 0 {
      StringsContent(c, names, table, heap, n - 1);
    }
  }

  // ---------------------------------------------------------------------
  // The decoder

  /** A decoded entry is made of the three section folds. */
  lemma DecodedSections(c: seq<Byte>, names: CapabilityNames, ti: Terminfo)
    requires Decode(c, names) == Ok(ti)
    ensures |c| >= 10
    ensures var h := ReadHeader(c);
      && Bools(c, names.booleans, NamesEnd(h), BoolReads(h)) == Some(ti.bools)
      && Numbers(c, names.numerics, NumbersStart(h), Reads16(h.numCount)) == Some(ti.numbers)
      && Strings(c, names.strings, StringTableStart(h), HeapStart(h), Reads16(h.strCount)) == Some(ti.strings)
  {
  }

  /** The file is rejected as not a terminfo file exactly when both magic
      bytes differ; one matching byte is enough to get past the check. No
      other error is returned (everything else is a value or a panic). */
  lemma MagicRejection(c: seq<Byte>, names: CapabilityNames)
    ensures Decode(c, names) == Err(WrongFileMsg) <==> (|c| >= 2 && c[0] != Magic1 && c[1] != Magic2)
    ensures Decode(c, names).Err? ==> Decode(c, names) == Err(WrongFileMsg)
    ensures !Decode(c, names).Underflow?
  {
  }

  /** A buffer too short for the header panics. */
  lemma ShortFilePanics(c: seq<Byte>, names: CapabilityNames)
    requires |c| < 10 && (|c| < 2 || c[0] == Magic1 || c[1] == Magic2)
    ensures Decode(c, names) == Panic
  {
  }

  /** Name and description are the first two '|'-separated pieces of the
      names section; a names section without '|' panics. */
  lemma DecodedNames(c: seq<Byte>, names: CapabilityNames)
    requires |c| >= 10 && (c[0] == Magic1 || c[1] == Magic2)
    requires HeaderLength <= NamesEnd(ReadHeader(c)) <= |c|
    ensures var field := Chars(c[HeaderLength..NamesEnd(ReadHeader(c))]);
      && ('|' !in field ==> Decode(c, names) == Panic)
      && (Decode(c, names).Ok? ==>
            var ti := Decode(c, names).value;
            && '|' !in ti.name && '|' !in ti.description
            && |ti.name| + 1 + |ti.description| <= |field|
            && field[..|ti.name|] == ti.name
            && field[|ti.name|] == '|'
            && field[|ti.name| + 1..|ti.name| + 1 + |ti.description|] == ti.description
            && (|ti.name| + 1 + |ti.description| == |field| || field[|ti.name| + 1 + |ti.description|] == '|'))
  {
    var field := Chars(c[HeaderLength..NamesEnd(ReadHeader(c))]);
    SplitHasSecondPiece(field, '|');
    if |Split(field, '|')| >= 2 {
      SplitFirstTwo(field, '|');
    }
  }

  /** The boolean map holds the first booleanSectionSize - 1 names, each
      true exactly when its byte after the names section is nonzero. */
  lemma DecodedBools(c: seq<Byte>, names: CapabilityNames, ti: Terminfo)
    requires Decode(c, names) == Ok(ti) && Distinct(names.booleans)
    ensures |c| >= 10
    ensures var h := ReadHeader(c); var n := BoolReads(h);
      && NamesEnd(h) + n <= |c| && n <= |names.booleans|
      && (forall key :: key in ti.bools <==> key in names.booleans[..n])
      && (forall i :: 0 <= i < n ==> ti.bools[names.booleans[i]] == (c[NamesEnd(h) + i] != 0))
  {
    var h := ReadHeader(c);
    BoolsContent(c, names.booleans, NamesEnd(h), BoolReads(h));
  }

  /** The numbers section starts at an even offset after the whole boolean
      section; a numeric name is present exactly when its little-endian
      value is not 0, 0x3737 or 0xffff, and then holds that value. */
  lemma DecodedNumbers(c: seq<Byte>, names: CapabilityNames, ti: Terminfo)
    requires Decode(c, names) == Ok(ti) && Distinct(names.numerics)
    ensures |c| >= 10
    ensures var h := ReadHeader(c); var base := NumbersStart(h); var n := Reads16(h.numCount);
      && base % 2 == 0
      && NamesEnd(h) + h.boolSize <= base <= NamesEnd(h) + h.boolSize + 1
      && n == h.numCount % 0x8000
      && (n > 0 ==> base + 2 * n <= |c|)
      && (forall k :: 0 <= k < n && k < |names.numerics| ==>
            (names.numerics[k] in ti.numbers <==> !AbsentNumber(NumberAt(c, base, k))))
      && (forall k :: 0 <= k < n && k < |names.numerics| && names.numerics[k] in ti.numbers ==>
            ti.numbers[names.numerics[k]] == NumberAt(c, base, k))
      && (forall key :: key in ti.numbers ==>
            exists k :: 0 <= k < n && k < |names.numerics| && names.numerics[k] == key)
  {
    var h := ReadHeader(c);
    Double16Wraps(h.numCount);
    NumbersContent(c, names.numerics, NumbersStart(h), Reads16(h.numCount));
  }

  /** The string heap starts right after the offset table; a string name
      is absent exactly when its offset is 0xffff, and otherwise holds the
      heap bytes from that offset to the next NUL or the end of the file. */
  lemma DecodedStrings(c: seq<Byte>, names: CapabilityNames, ti: Terminfo)
    requires Decode(c, names) == Ok(ti) && Distinct(names.strings)
    ensures |c| >= 10
    ensures var h := ReadHeader(c); var table := StringTableStart(h); var n := Reads16(h.strCount);
      && table == NumbersStart(h) + 2 * Reads16(h.numCount)
      && HeapStart(h) == table + 2 * n
      && (n > 0 ==> table + 2 * n <= |c|)
      && (forall k :: 0 <= k < n && k < |names.strings| ==>
            (names.strings[k] in ti.strings <==> NumberAt(c, table, k) != 0xffff))
      && (forall k :: 0 <= k < n && k < |names.strings| && names.strings[k] in ti.strings ==>
            ti.strings[names.strings[k]] == HeapString(c, table, HeapStart(h), k))
      && (forall key :: key in ti.strings ==>
            exists k :: 0 <= k < n && k < |names.strings| && names.strings[k] == key)
      && (forall key :: key in ti.strings ==> 0 as char !in ti.strings[key])
  {
    var h := ReadHeader(c);
    DecodedSections(c, names, ti);
    StringsContent(c, names.strings, StringTableStart(h), HeapStart(h), Reads16(h.strCount));
  }
}
