/** Whole runs of capability templates: a comparison of the first
    argument with a constant, and the xterm-style setab capability. */
module CapabilityExamples {
  import opened Outcomes
  import opened Strconv
  import opened TerminfoDecode
  import opened Capability
  import opened CapabilityTrace
  import opened CapabilityFacts

  /** %?%p1%{8}%<%t compares -1, the value of %{8}, with the first
      argument a: the then-part runs exactly when -1 < a. */
  lemma LessThanEight(f: Formatter, m: Machine, s: string, i: nat, a: int)
    requires m.state == Initial && m.strNumber == "" && |m.args| >= 1 && m.args[0] == VInt(a)
    requires At(s, i, "%?%p1%{8}%<%t")
    ensures Exec(f, m, s[i..]) == Exec(f, m.(state := if -1 < a then Initial else SkipThenExpr), s[i + 13..])
  {
    assert s[i] == '%' && s[i + 1] == '?' && s[i + 2] == '%' && s[i + 3] == 'p' && s[i + 4] == '1';
    assert s[i + 5] == '%' && s[i + 6] == '{' && s[i + 7] == '8';
    assert s[i + 8] == '}' && s[i + 9] == '%' && s[i + 10] == '<' && s[i + 11] == '%' && s[i + 12] == 't';
    ArgumentPushed(f, m, s, i);
    ArgumentAt(f, m.(state := PushParam), s, i + 4);
    EightCompared(f, m.(stack := [VInt(a)] + m.stack), s, i + 5, a);
  }

  /** The %{8}%<%t of %?%p1%{8}%<%t, with the argument a on the stack. */
  lemma EightCompared(f: Formatter, m: Machine, s: string, i: nat, a: int)
    requires m.state == Initial && m.strNumber == "" && m.stack != [] && m.stack[0] == VInt(a)
    requires i + 8 <= |s| && s[i] == '%' && s[i + 1] == '{' && s[i + 2] == '8'
    requires s[i + 3] == '}' && s[i + 4] == '%' && s[i + 5] == '<' && s[i + 6] == '%' && s[i + 7] == 't'
    ensures Exec(f, m, s[i..]) == Exec(f, m.(stack := m.stack[1..], state := if -1 < a then Initial else SkipThenExpr), s[i + 8..])
  {
    IntegerOfEight(f, m, s, i);
    var m2 := m.(stack := [VInt(-1)] + m.stack);
    var m3 := m.(stack := [VInt(if -1 < a then 1 else 0)] + m.stack[1..]);
    ComparedSteps(f, m, a);
    DirectiveAt(f, m2, s, i + 4, m3);
    DirectiveAt(f, m3, s, i + 6, m.(stack := m.stack[1..], state := if -1 < a then Initial else SkipThenExpr));
  }

  /** The directives %< and %t after -1 was pushed over a. */
  lemma ComparedSteps(f: Formatter, m: Machine, a: int)
    requires m.state == Initial && m.stack != [] && m.stack[0] == VInt(a)
    ensures var m3 := m.(stack := [VInt(if -1 < a then 1 else 0)] + m.stack[1..]);
      Directive(f, m.(stack := [VInt(-1)] + m.stack, state := Percent), '<') == Ok(m3) &&
      Directive(f, m3.(state := Percent), 't') == Ok(m.(stack := m.stack[1..], state := if -1 < a then Initial else SkipThenExpr))
  {
    assert ([VInt(-1)] + m.stack)[2..] == m.stack[1..];
  }

  /** The xterm-style setab template, in the pieces the proof below walks
      through: the escape, the test of the argument against 8, the
      8-colour form written when the test holds, and the else-part with
      the 16- and 256-colour forms. */
  const SetabEscape: string := "\U{1b}["
  const SetabTest: string := "%?%p1%{8}%<%t"
  const SetabLow: string := "4%p1%d"
  const SetabElse: string := "%p1%{16}%<%t10%p1%{8}%-%d%e48;5;%p1%d"
  const SetabHigh: string := "%e" + SetabElse + "%;" + "m"
  const Setab: string := SetabEscape + SetabTest + SetabLow + SetabHigh

  /** setab writes ESC [ 4 n m for every argument n >= 0 (%{8} pushes -1,
      which is below every such n); for 5 these are the bytes 27 91 52 53
      109. */
  lemma SetabOfNonNegative(f: Formatter, ti: Terminfo, n: int)
    requires "setab" in ti.strings && |ti.strings["setab"]| == |Setab| && At(ti.strings["setab"], 0, Setab) && 0 <= n
    ensures Apply(f, ti, "setab", [VInt(n)]) == Ok(SetabEscape + "4" + Itoa(n) + "m")
  {
    var s := ti.strings["setab"];
    var m0 := Start([VInt(n)]);
    AtSplit(s, 0, SetabEscape + SetabTest + SetabLow, SetabHigh);
    AtSplit(s, 0, SetabEscape + SetabTest, SetabLow);
    AtSplit(s, 0, SetabEscape, SetabTest);
    var m1 := m0.(result := SetabEscape);
    SetabEscaped(f, m0, s);
    LessThanEight(f, m1, s, 2, n);
    assert s[15] == '4' && s[16] == '%' && s[17] == 'p' && s[18] == '1' && s[19] == '%' && s[20] == 'd';
    SetabLowWritten(f, m1, s, n);
    var m3 := m1.(result := SetabEscape + "4" + Itoa(n));
    SetabHighSkipped(f, m3, s, 21);
    assert s[0..] == s;
    RunIsExec(f, m0, s);
  }

  /** The two characters of the escape are copied. */
  lemma SetabEscaped(f: Formatter, m: Machine, s: string)
    requires m.state == Initial && m.result == "" && At(s, 0, SetabEscape)
    ensures Exec(f, m, s[0..]) == Exec(f, m.(result := SetabEscape), s[2..])
  {
    assert s[0] == SetabEscape[0] && s[1] == SetabEscape[1];
    LiteralAt(f, m, s, 0);
    assert m.result + [s[0]] == [s[0]];
    LiteralAt(f, m.(result := [s[0]]), s, 1);
    assert [s[0]] + [s[1]] == SetabEscape;
  }

  /** The then-part 4%p1%d writes 4 and the argument. */
  lemma SetabLowWritten(f: Formatter, m: Machine, s: string, n: int)
    requires m.state == Initial && |m.args| >= 1 && m.args[0] == VInt(n) && 21 <= |s|
    requires s[15] == '4' && s[16] == '%' && s[17] == 'p' && s[18] == '1' && s[19] == '%' && s[20] == 'd'
    ensures Exec(f, m, s[15..]) == Exec(f, m.(result := m.result + "4" + Itoa(n)), s[21..])
  {
    var m1 := m.(result := m.result + "4");
    LiteralAt(f, m, s, 15);
    assert m.(result := m.result + [s[15]]) == m1;
    assert s[18] as int - '1' as int == 0 && m1.args == m.args;
    DecimalArgument(f, m1, s, 16, n);
  }

  /** The else-part of setab has no directive that ends or nests a
      skipped else-part. */
  lemma SetabElseFlat()
    ensures Flat(SetabElse, ElseStops)
  {
    var a, b, c := "%p1%{16}%<%t10", "%p1%{8}%-%d", "%e48;5;%p1%d";
    assert SetabElse == a + b + c;
    FlatPieces();
    FlatConcat(a, b, ElseStops);
    FlatConcat(a + b, c, ElseStops);
  }

  lemma FlatPieces()
    ensures Flat("%p1%{16}%<%t10", ElseStops) && Flat("%p1%{8}%-%d", ElseStops) && Flat("%e48;5;%p1%d", ElseStops)
  {
  }

  /** The else-part is skipped and the final m written. */
  lemma SetabHighSkipped(f: Formatter, m: Machine, s: string, i: nat)
    requires m.state == Initial && m.level == 0 && |s| == i + |SetabHigh| && At(s, i, SetabHigh)
    ensures Exec(f, m, s[i..]) == Ok(m.(result := m.result + "m"))
  {
    AtSlice(s, i, SetabHigh);
    assert s[i..] == SetabHigh;
    SetabElseFlat();
    ElseThenLiteral(f, m, SetabElse, "m");
  }
}
