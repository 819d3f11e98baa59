/** Properties of the capability interpreter of terminfo/terminfo.go,
    stated about the functions Step, Run and Apply of module Capability
    (to which the imperative ApplyCapability is proved equal). */
module CapabilityFacts {
  import opened Outcomes
  import opened Strconv
  import opened TerminfoDecode
  import opened Capability
  import opened CapabilityTrace

  // ---------------------------------------------------------------------
  // The unsupported-capability error

  lemma StepNeverUnsupported(f: Formatter, m: Machine, c: char)
    ensures Step(f, m, c) != Err(UnsupportedMsg)
  {
  }

  lemma {:induction false} RunNeverUnsupported(f: Formatter, m: Machine, s: string)
    ensures Run(f, m, s) != Err(UnsupportedMsg)
    decreases |s|
  {
    if s != [] {
      var next := Step(f, m, s[0]);
      StepNeverUnsupported(f, m, s[0]);
      if next.Ok? {
        RunNeverUnsupported(f, next.value, s[1..]);
      }
    }
  }

  /** The call answers "Your terminal does not support such capability"
      exactly when the entry has no string capability of that name. */
  lemma UnsupportedExactly(f: Formatter, ti: Terminfo, capability: string, args: seq<Value>)
    ensures Apply(f, ti, capability, args) == Err(UnsupportedMsg) <==> capability !in ti.strings
  {
    if capability in ti.strings {
      RunNeverUnsupported(f, Start(args), ti.strings[capability]);
    }
  }

  // ---------------------------------------------------------------------
  // Literal text and %%

  /** Outside directives, template characters are copied to the output. */
  lemma {:induction false} LiteralsCopied(f: Formatter, m: Machine, s: string)
    requires m.state == Initial && '%' !in s
    ensures Exec(f, m, s) == Ok(m.(result := m.result + s))
    decreases |s|
  {
    if s == [] {
      assert m.result + s == m.result;
    } else {
      var m' := m.(result := m.result + [s[0]]);
      assert Step(f, m, s[0]) == Ok(m');
      LiteralsCopied(f, m', s[1..]);
      assert m'.result + s[1..] == m.result + s;
    }
  }

  /** A capability without directives renders as itself. */
  lemma PlainCapability(f: Formatter, ti: Terminfo, capability: string, args: seq<Value>)
    requires capability in ti.strings && '%' !in ti.strings[capability]
    ensures Apply(f, ti, capability, args) == Ok(ti.strings[capability])
  {
    LiteralsCopied(f, Start(args), ti.strings[capability]);
    RunIsExec(f, Start(args), ti.strings[capability]);
    assert "" + ti.strings[capability] == ti.strings[capability];
  }

  /** %% writes one '%'. */
  lemma PercentPercent(f: Formatter, m: Machine)
    requires m.state == Initial
    ensures Exec(f, m, "%%") == Ok(m.(result := m.result + "%"))
  {
  }

  // ---------------------------------------------------------------------
  // Variables

  /** %Px stores the top of the stack and %gx pushes it back: the stack
      ends as it began and only the slot of x changed, which is
      dynamics[x - 'a'] for a lower-case and statics[x - 'B'] for an
      upper-case letter other than 'A'. */
  lemma SetThenGet(f: Formatter, m: Machine, x: char, v: int, rest: seq<Value>)
    requires m.state == Initial && m.stack == [VInt(v)] + rest
    requires |m.dynamics| == VariableCount && |m.statics| == VariableCount
    requires IsLower(x) || 'B' <= x <= 'Z'
    ensures Exec(f, m, ['%', 'P', x, '%', 'g', x]) == Ok(
      if IsLower(x) then m.(dynamics := m.dynamics[x as int - 'a' as int := v])
      else m.(statics := m.statics[x as int - 'B' as int := v]))
  {
    var s := ['%', 'P', x, '%', 'g', x];
    var m3 := if IsLower(x) then m.(dynamics := m.dynamics[x as int - 'a' as int := v], stack := rest)
      else m.(statics := m.statics[x as int - 'B' as int := v], stack := rest);
    var m6 := if IsLower(x) then m.(dynamics := m.dynamics[x as int - 'a' as int := v])
      else m.(statics := m.statics[x as int - 'B' as int := v]);
    assert m6 == m3.(stack := [VInt(v)] + rest);
    assert s[0..] == s && s[6..] == [];
    SetAt(f, m, s, 0, x, v, rest, m3);
    GetAt(f, m3, s, 3, x, m6);
  }

  /** %Px at position i. */
  lemma SetAt(f: Formatter, m: Machine, s: string, i: nat, x: char, v: int, rest: seq<Value>, m': Machine)
    requires m.state == Initial && m.stack == [VInt(v)] + rest
    requires |m.dynamics| == VariableCount && |m.statics| == VariableCount
    requires i + 2 < |s| && s[i] == '%' && s[i + 1] == 'P' && s[i + 2] == x && (IsLower(x) || 'B' <= x <= 'Z')
    requires m' == if IsLower(x) then m.(dynamics := m.dynamics[x as int - 'a' as int := v], stack := rest)
      else m.(statics := m.statics[x as int - 'B' as int := v], stack := rest)
    ensures Exec(f, m, s[i..]) == Exec(f, m', s[i + 3..])
  {
    SetSteps(f, m, x, v, rest);
    DirectiveAt(f, m, s, i, m.(state := SetParam));
    ExecAt(f, m.(state := SetParam), s, i + 2);
  }

  lemma SetSteps(f: Formatter, m: Machine, x: char, v: int, rest: seq<Value>)
    requires m.state == Initial && m.stack == [VInt(v)] + rest
    requires |m.dynamics| == VariableCount && |m.statics| == VariableCount && (IsLower(x) || 'B' <= x <= 'Z')
    ensures Step(f, m.(state := SetParam), x) == Ok(
      if IsLower(x) then m.(dynamics := m.dynamics[x as int - 'a' as int := v], stack := rest)
      else m.(statics := m.statics[x as int - 'B' as int := v], stack := rest))
  {
    assert m.stack[1..] == rest;
  }

  /** %gx at position i. */
  lemma GetAt(f: Formatter, m: Machine, s: string, i: nat, x: char, m': Machine)
    requires m.state == Initial && |m.dynamics| == VariableCount && |m.statics| == VariableCount
    requires i + 2 < |s| && s[i] == '%' && s[i + 1] == 'g' && s[i + 2] == x && (IsLower(x) || 'B' <= x <= 'Z')
    requires m' == m.(stack := [VInt(if IsLower(x) then m.dynamics[x as int - 'a' as int] else m.statics[x as int - 'B' as int])] + m.stack)
    ensures Exec(f, m, s[i..]) == Exec(f, m', s[i + 3..])
  {
    DirectiveAt(f, m, s, i, m.(state := GetParam));
    ExecAt(f, m.(state := GetParam), s, i + 2);
  }

  /** Every slot is zero when a call starts. */
  lemma FreshVariablesAreZero(f: Formatter, args: seq<Value>, x: char)
    requires IsLower(x) || 'B' <= x <= 'Z'
    ensures Exec(f, Start(args), ['%', 'g', x]) == Ok(Start(args).(stack := [VInt(0)]))
  {
    var s := ['%', 'g', x];
    assert s[0..] == s;
    ExecAt(f, Start(args), s, 0);
    ExecAt(f, Start(args).(state := Percent), s, 1);
    ExecAt(f, Start(args).(state := GetParam), s, 2);
    assert s[3..] == [];
    assert [VInt(0)] + [] == [VInt(0)];
  }

  /** %gA and %PA index the statics at -1 and fault. */
  lemma StaticAFaults(f: Formatter, m: Machine)
    requires m.state == Initial
    ensures Exec(f, m, "%gA") == Panic
    ensures m.stack != [] ==> Exec(f, m, "%PA") == Panic
  {
  }

  /** A non-letter after %g or %P is an error; %P pops before it looks at
      the letter, so on an empty stack it fails on the pop instead. */
  lemma NonLetterVariable(f: Formatter, m: Machine, c: char)
    requires m.state == Initial && !IsLower(c) && !IsUpper(c)
    ensures Exec(f, m, ['%', 'g', c]) == Err(GetLetterMsg)
    ensures Exec(f, m, ['%', 'P', c]) == if m.stack == [] then Underflow else Err(SetLetterMsg)
  {
    var g, p := ['%', 'g', c], ['%', 'P', c];
    assert g[0..] == g && p[0..] == p;
    ExecAt(f, m, g, 0);
    ExecAt(f, m.(state := Percent), g, 1);
    ExecAt(f, m.(state := GetParam), g, 2);
    ExecAt(f, m, p, 0);
    ExecAt(f, m.(state := Percent), p, 1);
    ExecAt(f, m.(state := SetParam), p, 2);
  }

  // ---------------------------------------------------------------------
  // Conditionals

  /** Text a skipped branch may hold: every '%' in w is followed by a
      character that is not in stops. */
  predicate Flat(w: string, stops: string) {
    forall i :: 0 <= i < |w| && w[i] == '%' ==> i + 1 < |w| && w[i + 1] !in stops
  }

  /** The characters that end or nest a skipped then-part, and those that
      end or nest a skipped else-part. */
  const ThenStops: string := ";e?%"
  const ElseStops: string := ";?%"

  lemma FlatConcat(a: string, b: string, stops: string)
    requires Flat(a, stops) && Flat(b, stops)
    ensures Flat(a + b, stops)
  {
    forall i | 0 <= i < |a + b| && (a + b)[i] == '%'
      ensures i + 1 < |a + b| && (a + b)[i + 1] !in stops
    {
      if i < |a| {
        assert a[i] == '%';
      } else {
        assert b[i - |a|] == '%';
      }
    }
  }

  lemma FlatSuffix(w: string, stops: string, k: nat)
    requires Flat(w, stops) && k <= |w| && (k > 0 ==> w[k - 1] != '%')
    ensures Flat(w[k..], stops)
  {
    forall i | 0 <= i < |w[k..]| && w[k..][i] == '%'
      ensures i + 1 < |w[k..]| && w[k..][i + 1] !in stops
    {
      assert w[k + i] == '%';
    }
  }

  /** A skipped branch leaves the machine as it is. */
  lemma {:induction false} FlatSkipped(f: Formatter, m: Machine, w: string)
    requires (m.state == SkipThenExpr && Flat(w, ThenStops)) || (m.state == ElseExpr && Flat(w, ElseStops))
    ensures Exec(f, m, w) == Ok(m)
    decreases |w|
  {
    var stops := if m.state == SkipThenExpr then ThenStops else ElseStops;
    if w != [] {
      if w[0] != '%' {
        assert Step(f, m, w[0]) == Ok(m);
        FlatSuffix(w, stops, 1);
        FlatSkipped(f, m, w[1..]);
      } else {
        assert w[1] !in stops;
        var m1 := m.(state := if m.state == SkipThenExpr then IfExprPercent else ElsePercent);
        assert Step(f, m, w[0]) == Ok(m1);
        assert Step(f, m1, w[1]) == Ok(m);
        FlatSuffix(w, stops, 2);
        FlatSkipped(f, m, w[2..]);
        ExecAt(f, m1, w, 1);
      }
    }
  }

  /** After a false %t the then-part is skipped up to %e or %;. */
  lemma ThenSkipped(f: Formatter, m: Machine, w: string, c: char)
    requires m.state == SkipThenExpr && m.level == 0 && Flat(w, ThenStops) && (c == ';' || c == 'e')
    ensures Exec(f, m, w + ['%', c]) == Ok(m.(state := Initial))
  {
    FlatSkipped(f, m, w);
    ExecAppend(f, m, w, ['%', c]);
    var e := ['%', c];
    assert e[0..] == e;
    ExecAt(f, m, e, 0);
    ExecAt(f, m.(state := IfExprPercent), e, 1);
  }

  /** After an executed then-part, %e skips the else-part up to %;. */
  lemma ElseSkipped(f: Formatter, m: Machine, w: string)
    requires m.state == ElseExpr && m.level == 0 && Flat(w, ElseStops)
    ensures Exec(f, m, w + "%;") == Ok(m.(state := Initial))
  {
    FlatSkipped(f, m, w);
    ExecAppend(f, m, w, "%;");
  }

  /** Skipped text read as tokens: a character other than '%', a '%'
      with the character after it, or a whole nested conditional "%?"
      body "%;". */
  datatype Piece = Plain(c: char) | Pair(x: char) | Group(body: seq<Piece>)

  /** The template text of a sequence of pieces. */
  function Text(ps: seq<Piece>): string
    decreases ps
  {
    if ps == [] then ""
    else
      var head := match ps[0]
        case Plain(c) => [c]
        case Pair(x) => ['%', x]
        case Group(b) => "%?" + Text(b) + "%;";
      head + Text(ps[1..])
  }

  /** Well nested to any depth: a plain character is not '%', a pair
      neither opens (%?) nor closes (%;) a conditional, and the body of a
      group is well nested itself. */
  predicate WellNested(ps: seq<Piece>)
    decreases ps
  {
    ps == [] ||
    ((match ps[0]
      case Plain(c) => c != '%'
      case Pair(x) => x != '?' && x != ';'
      case Group(b) => WellNested(b))
     && WellNested(ps[1..]))
  }

  /** No %e at the outer level of a piece sequence; %e inside a group is
      allowed. */
  predicate NoOuterElse(ps: seq<Piece>) {
    forall i :: 0 <= i < |ps| ==> ps[i] != Pair('e')
  }

  /** A whole conditional inside a skipped branch is skipped with it, to
      any depth: the nesting counter goes up at %? and back down at the
      matching %;, and a %e at a deeper level does not end the outer
      skip. */
  lemma {:induction false} NestedSkipped(f: Formatter, m: Machine, ps: seq<Piece>)
    requires m.state == SkipThenExpr || m.state == ElseExpr
    requires m.level >= 0 && WellNested(ps)
    ensures Exec(f, m, "%?" + Text(ps) + "%;") == Ok(m)
    decreases ps, 1
  {
    var w := Text(ps);
    var m1 := m.(level := m.level + 1);
    var t := "%?" + w + "%;";
    assert t[0] == '%' && t[1] == '?' && t[0..] == t && t[2..] == w + "%;";
    NestOpenedAt(f, m, t, 0);
    WellNestedSkipped(f, m1, ps);
    ExecAppend(f, m1, w, "%;");
    var u := "%;";
    assert u[0] == '%' && u[1] == ';' && u[0..] == u && u[2..] == [];
    NestClosedAt(f, m1, u, 0);
  }

  /** Well-nested skipped text leaves a skipping machine as it is. At the
      outer level of a then-part (depth 0) a %e would end the skip, so
      there it must not occur. */
  lemma {:induction false} WellNestedSkipped(f: Formatter, m: Machine, ps: seq<Piece>)
    requires m.state == SkipThenExpr || m.state == ElseExpr
    requires m.level >= 0 && WellNested(ps)
    requires m.state == SkipThenExpr && m.level == 0 ==> NoOuterElse(ps)
    ensures Exec(f, m, Text(ps)) == Ok(m)
    decreases ps, 0
  {
    if ps != [] {
      var rest := Text(ps[1..]);
      var head: string;
      match ps[0] {
      case Plain(c) =>
        head := [c];
        assert head[0..] == head && head[1..] == [];
        ExecAt(f, m, head, 0);
      case Pair(x) =>
        head := ['%', x];
        assert head[0..] == head && head[2..] == [];
        var m1 := m.(state := if m.state == SkipThenExpr then IfExprPercent else ElsePercent);
        PairSteps(f, m, x);
        ExecAt(f, m, head, 0);
        ExecAt(f, m1, head, 1);
      case Group(b) =>
        head := "%?" + Text(b) + "%;";
        NestedSkipped(f, m, b);
      }
      assert Text(ps) == head + rest;
      ExecAppend(f, m, head, rest);
      assert NoOuterElse(ps) ==> NoOuterElse(ps[1..]) by {
        if NoOuterElse(ps) {
          forall i | 0 <= i < |ps[1..]| ensures ps[1..][i] != Pair('e') {
            assert ps[1..][i] == ps[i + 1];
          }
        }
      }
      WellNestedSkipped(f, m, ps[1..]);
    }
  }

  /** The two steps of a skipped %x that neither opens nor closes a
      conditional, nor ends a then-part at depth 0. */
  lemma PairSteps(f: Formatter, m: Machine, x: char)
    requires m.state == SkipThenExpr || m.state == ElseExpr
    requires x != '?' && x != ';' && (m.state == SkipThenExpr && m.level == 0 ==> x != 'e')
    ensures var m1 := m.(state := if m.state == SkipThenExpr then IfExprPercent else ElsePercent);
      Step(f, m, '%') == Ok(m1) && Step(f, m1, x) == Ok(m)
  {
  }

  /** A skipped branch at depth 0 runs to its own %e or %; (a then-part)
      or to its own %; (an else-part), past nested conditionals of any
      depth, and execution resumes there. */
  lemma BranchSkipped(f: Formatter, m: Machine, ps: seq<Piece>, c: char)
    requires m.level == 0 && WellNested(ps)
    requires (m.state == SkipThenExpr && NoOuterElse(ps) && (c == ';' || c == 'e')) || (m.state == ElseExpr && c == ';')
    ensures Exec(f, m, Text(ps) + ['%', c]) == Ok(m.(state := Initial))
  {
    WellNestedSkipped(f, m, ps);
    ExecAppend(f, m, Text(ps), ['%', c]);
    var e := ['%', c];
    var m1 := m.(state := if m.state == SkipThenExpr then IfExprPercent else ElsePercent);
    assert e[0..] == e && e[2..] == [];
    ExecAt(f, m, e, 0);
    ExecAt(f, m1, e, 1);
  }

  /** A skipped %? at position i goes one level deeper. */
  lemma NestOpenedAt(f: Formatter, m: Machine, s: string, i: nat)
    requires (m.state == SkipThenExpr || m.state == ElseExpr) && m.level >= 0
    requires i + 1 < |s| && s[i] == '%' && s[i + 1] == '?'
    ensures Exec(f, m, s[i..]) == Exec(f, m.(level := m.level + 1), s[i + 2..])
  {
    var m1 := m.(state := if m.state == SkipThenExpr then IfExprPercent else ElsePercent);
    NestOpenSteps(f, m);
    ExecAt(f, m, s, i);
    ExecAt(f, m1, s, i + 1);
  }

  lemma NestOpenSteps(f: Formatter, m: Machine)
    requires m.state == SkipThenExpr || m.state == ElseExpr
    ensures var m1 := m.(state := if m.state == SkipThenExpr then IfExprPercent else ElsePercent);
      Step(f, m, '%') == Ok(m1) && Step(f, m1, '?') == Ok(m.(level := m.level + 1))
  {
  }

  /** A skipped %; at position i, at a level above 0, goes one level up. */
  lemma NestClosedAt(f: Formatter, m: Machine, s: string, i: nat)
    requires (m.state == SkipThenExpr || m.state == ElseExpr) && m.level > 0
    requires i + 1 < |s| && s[i] == '%' && s[i + 1] == ';'
    ensures Exec(f, m, s[i..]) == Exec(f, m.(level := m.level - 1), s[i + 2..])
  {
    var m1 := m.(state := if m.state == SkipThenExpr then IfExprPercent else ElsePercent);
    NestCloseSteps(f, m);
    ExecAt(f, m, s, i);
    ExecAt(f, m1, s, i + 1);
  }

  lemma NestCloseSteps(f: Formatter, m: Machine)
    requires (m.state == SkipThenExpr || m.state == ElseExpr) && m.level > 0
    ensures var m1 := m.(state := if m.state == SkipThenExpr then IfExprPercent else ElsePercent);
      Step(f, m, '%') == Ok(m1) && Step(f, m1, ';') == Ok(m.(level := m.level - 1))
  {
  }

  /** %t pops; the value 0 takes the skip, anything else (a string
      included) continues with the then-part. */
  lemma TestPops(f: Formatter, m: Machine, v: Value, rest: seq<Value>)
    requires m.state == Percent && m.stack == [v] + rest
    ensures Step(f, m, 't') == Ok(m.(stack := rest, state := if v == VInt(0) then SkipThenExpr else Initial))
  {
  }

  /** %?%pN%t at position i tests argument N and leaves the stack as it
      was: the value 0 takes the skip. */
  lemma TestArgument(f: Formatter, m: Machine, s: string, i: nat)
    requires m.state == Initial && At(s, i, "%?%p") && At(s, i + 5, "%t")
    requires 0 <= s[i + 4] as int - '1' as int < |m.args|
    ensures var k := s[i + 4] as int - '1' as int;
      Exec(f, m, s[i..]) == Exec(f, m.(state := if m.args[k] == VInt(0) then SkipThenExpr else Initial), s[i + 7..])
  {
    assert s[i] == '%' && s[i + 1] == '?' && s[i + 2] == '%' && s[i + 3] == 'p';
    assert s[i + 5] == '%' && s[i + 6] == 't';
    calc {
      Exec(f, m, s[i..]);
      { ArgumentPushed(f, m, s, i); }
      Exec(f, m.(state := PushParam), s[i + 4..]);
      { ArgumentTested(f, m, s, i + 4); }
      Exec(f, m.(state := if m.args[s[i + 4] as int - '1' as int] == VInt(0) then SkipThenExpr else Initial), s[i + 4 + 3..]);
    }
  }

  /** The %?%p of %?%pN%t. */
  lemma ArgumentPushed(f: Formatter, m: Machine, s: string, i: nat)
    requires m.state == Initial && i + 4 <= |s|
    requires s[i] == '%' && s[i + 1] == '?' && s[i + 2] == '%' && s[i + 3] == 'p'
    ensures Exec(f, m, s[i..]) == Exec(f, m.(state := PushParam), s[i + 4..])
  {
    PushSteps(f, m);
    DirectiveAt(f, m, s, i, m);
    DirectiveAt(f, m, s, i + 2, m.(state := PushParam));
  }

  lemma PushSteps(f: Formatter, m: Machine)
    requires m.state == Initial
    ensures Directive(f, m.(state := Percent), '?') == Ok(m)
    ensures Directive(f, m.(state := Percent), 'p') == Ok(m.(state := PushParam))
  {
  }

  /** The N%t of %?%pN%t, after the %?%p that left the machine m in
      state PushParam. */
  lemma ArgumentTested(f: Formatter, m: Machine, s: string, i: nat)
    requires m.state == Initial && i + 2 < |s| && s[i + 1] == '%' && s[i + 2] == 't'
    requires 0 <= s[i] as int - '1' as int < |m.args|
    ensures Exec(f, m.(state := PushParam), s[i..]) ==
      Exec(f, m.(state := if m.args[s[i] as int - '1' as int] == VInt(0) then SkipThenExpr else Initial), s[i + 3..])
  {
    var k := s[i] as int - '1' as int;
    var m1 := m.(stack := [m.args[k]] + m.stack);
    TestStep(f, m, m.args[k]);
    ArgumentAt(f, m.(state := PushParam), s, i);
    DirectiveAt(f, m1, s, i + 1, m.(state := if m.args[k] == VInt(0) then SkipThenExpr else Initial));
  }

  lemma TestStep(f: Formatter, m: Machine, v: Value)
    requires m.state == Initial
    ensures Directive(f, m.(stack := [v] + m.stack).(state := Percent), 't') ==
      Ok(m.(state := if v == VInt(0) then SkipThenExpr else Initial))
  {
    assert ([v] + m.stack)[1..] == m.stack;
  }

  /** A conditional %?%pN%t A %e B %; with literal A and B writes A when
      argument N is not 0 and B when it is; in the second case the final %;
      leaves the machine reading a directive. */
  lemma IfThenElse(f: Formatter, m: Machine, t: string, a: string, b: string)
    requires m.state == Initial && m.level == 0 && '%' !in a && '%' !in b
    requires |t| == 7 && At(t, 0, "%?%p") && At(t, 5, "%t") && 0 <= t[4] as int - '1' as int < |m.args|
    ensures Exec(f, m, t + a + "%e" + b + "%;") ==
      if m.args[t[4] as int - '1' as int] == VInt(0) then Ok(m.(result := m.result + b, state := Percent))
      else Ok(m.(result := m.result + a))
  {
    var tail := a + "%e" + b + "%;";
    assert t + a + "%e" + b + "%;" == t + tail;
    ConditionEntered(f, m, t);
    ExecAppend(f, m, t, tail);
    if m.args[t[4] as int - '1' as int] == VInt(0) {
      ThenPartSkipped(f, m.(state := SkipThenExpr), a, b);
    } else {
      ThenPartTaken(f, m, a, b);
    }
  }

  /** The %?%pN%t that opens a conditional, as a template of its own. */
  lemma ConditionEntered(f: Formatter, m: Machine, t: string)
    requires m.state == Initial
    requires |t| == 7 && At(t, 0, "%?%p") && At(t, 5, "%t") && 0 <= t[4] as int - '1' as int < |m.args|
    ensures Exec(f, m, t) == Ok(m.(state := if m.args[t[4] as int - '1' as int] == VInt(0) then SkipThenExpr else Initial))
  {
    TestArgument(f, m, t, 0);
    assert t[0..] == t && t[7..] == [];
  }

  /** A %e B %; after a then-part A that runs: A is written, B skipped. */
  lemma ThenPartTaken(f: Formatter, m: Machine, a: string, b: string)
    requires m.state == Initial && m.level == 0 && '%' !in a && '%' !in b
    ensures Exec(f, m, a + "%e" + b + "%;") == Ok(m.(result := m.result + a))
  {
    assert a + "%e" + b + "%;" == a + ("%e" + (b + "%;"));
    LiteralsCopied(f, m, a);
    ExecAppend(f, m, a, "%e" + (b + "%;"));
    var m2 := m.(result := m.result + a);
    ElseEntered(f, m2, b + "%;");
    assert Flat(b, ElseStops);
    ElseSkipped(f, m2.(state := ElseExpr), b);
  }

  /** %e met while running starts skipping the else-part. */
  lemma ElseEntered(f: Formatter, m: Machine, w: string)
    requires m.state == Initial
    ensures Exec(f, m, "%e" + w) == Exec(f, m.(state := ElseExpr), w)
  {
    var s := "%e" + w;
    assert s[0] == '%' && s[1] == 'e' && s[0..] == s && s[2..] == w;
    DirectiveAt(f, m, s, 0, m.(state := ElseExpr));
  }

  /** %e B %; followed by literal text: B is skipped and the text written. */
  lemma ElseThenLiteral(f: Formatter, m: Machine, w: string, tail: string)
    requires m.state == Initial && m.level == 0 && Flat(w, ElseStops) && '%' !in tail
    ensures Exec(f, m, "%e" + w + "%;" + tail) == Ok(m.(result := m.result + tail))
  {
    assert "%e" + w + "%;" + tail == "%e" + ((w + "%;") + tail);
    ElseEntered(f, m, (w + "%;") + tail);
    var m4 := m.(state := ElseExpr);
    ElseSkipped(f, m4, w);
    ExecAppend(f, m4, w + "%;", tail);
    LiteralsCopied(f, m, tail);
  }

  /** A %e B %; after a false test: A is skipped, B written, and the
      final %; leaves the machine in the directive state. */
  lemma ThenPartSkipped(f: Formatter, m: Machine, a: string, b: string)
    requires m.state == SkipThenExpr && m.level == 0 && '%' !in a && '%' !in b
    ensures Exec(f, m, a + "%e" + b + "%;") == Ok(m.(result := m.result + b, state := Percent))
  {
    assert a + "%e" + b + "%;" == (a + "%e") + (b + "%;");
    assert Flat(a, ThenStops);
    ThenSkipped(f, m, a, 'e');
    ExecAppend(f, m, a + "%e", b + "%;");
    var m1 := m.(state := Initial);
    LiteralsCopied(f, m1, b);
    ExecAppend(f, m1, b, "%;");
  }

  /** Every character that has a meaning after '%'. */
  const DirectiveChars: string := "%xXosdcpPlg<OA=>'+-/*^&|m!~{i:;?te"

  /** The character after a %; that closes a taken else-part is read as a
      directive: a character without a meaning there is dropped. */
  lemma EndAfterElseDropsNextChar(f: Formatter, m: Machine, t: string, a: string, b: string, c: char)
    requires m.state == Initial && m.level == 0 && '%' !in a && '%' !in b && c !in DirectiveChars
    requires |t| == 7 && At(t, 0, "%?%p") && At(t, 5, "%t") && 0 <= t[4] as int - '1' as int < |m.args|
    requires m.args[t[4] as int - '1' as int] == VInt(0)
    ensures Exec(f, m, t + a + "%e" + b + "%;" + [c]) == Ok(m.(result := m.result + b))
  {
    IfThenElse(f, m, t, a, b);
    ExecAppend(f, m, t + a + "%e" + b + "%;", [c]);
    var m1 := m.(result := m.result + b, state := Percent);
    UnknownDirectiveDropped(f, m1, c);
    assert [c][0..] == [c] && [c][1..] == [];
    ExecAt(f, m1, [c], 0);
  }

  /** A character without a meaning after '%' is dropped. */
  lemma UnknownDirectiveDropped(f: Formatter, m: Machine, c: char)
    requires m.state == Percent && c !in DirectiveChars
    ensures Step(f, m, c) == Ok(m.(state := Initial))
  {
  }

  // ---------------------------------------------------------------------
  // Comparisons, arithmetic and the directives that do nothing

  /** %< %> %= %A %O pop v1 (the top) and v2 and push exactly 1 or 0. */
  lemma ComparisonPushesBit(f: Formatter, m: Machine, op: char, v1: int, v2: int, rest: seq<Value>)
    requires m.state == Percent && op in "<>=AO" && m.stack == [VInt(v1), VInt(v2)] + rest
    ensures op == '<' ==> Step(f, m, op) == Ok(m.(state := Initial, stack := [VInt(if v1 < v2 then 1 else 0)] + rest))
    ensures op == '>' ==> Step(f, m, op) == Ok(m.(state := Initial, stack := [VInt(if v1 > v2 then 1 else 0)] + rest))
    ensures op == '=' ==> Step(f, m, op) == Ok(m.(state := Initial, stack := [VInt(if v1 == v2 then 1 else 0)] + rest))
    ensures op == 'A' ==> Step(f, m, op) == Ok(m.(state := Initial, stack := [VInt(if v1 > 0 && v2 > 0 then 1 else 0)] + rest))
    ensures op == 'O' ==> Step(f, m, op) == Ok(m.(state := Initial, stack := [VInt(if v1 > 0 || v2 > 0 then 1 else 0)] + rest))
  {
    assert m.stack[2..] == rest;
  }

  /** A string operand of a comparison or of %m is a failed type assertion. */
  lemma OperandMustBeInteger(f: Formatter, m: Machine, op: char)
    requires m.state == Percent && op in "<>=AOm" && |m.stack| >= 2
    requires m.stack[0].VStr? || m.stack[1].VStr?
    ensures Step(f, m, op) == Panic
  {
  }

  /** %m pushes Go's truncated remainder of v1 by v2 and stays in the
      directive state; v2 = 0 faults. */
  lemma RemainderStaysInPercent(f: Formatter, m: Machine, v1: int, v2: int, rest: seq<Value>)
    requires m.state == Percent && m.stack == [VInt(v1), VInt(v2)] + rest
    ensures v2 == 0 ==> Step(f, m, 'm') == Panic
    ensures v2 != 0 ==> Step(f, m, 'm') == Ok(m.(stack := [VInt(GoRem(v1, v2))] + rest))
  {
    assert m.stack[2..] == rest;
  }

  /** %! pushes 0 exactly when the value is greater than 0, %~ pushes the
      bitwise complement -v-1; both stay in the directive state. */
  lemma NotAndComplement(f: Formatter, m: Machine, v: int, rest: seq<Value>)
    requires m.state == Percent && m.stack == [VInt(v)] + rest
    ensures Step(f, m, '!') == Ok(m.(stack := [VInt(if v > 0 then 0 else 1)] + rest))
    ensures Step(f, m, '~') == Ok(m.(stack := [VInt(-v - 1)] + rest))
  {
  }

  /** %+ %- %/ %* %^ %& %| and %; change nothing, not even the state, so
      the next character is read as a directive too. */
  lemma InertDirectives(f: Formatter, m: Machine, op: char)
    requires m.state == Percent && op in "+-/*^&|;"
    ensures Step(f, m, op) == Ok(m)
  {
  }

  // ---------------------------------------------------------------------
  // %{nn}

  /** The text %{ accumulates: the decimal text of 55 - c for every
      character c. */
  function EncodedDigits(w: string): string
    decreases |w|
  {
    if w == [] then "" else Itoa(64 - w[0] as int - 9) + EncodedDigits(w[1..])
  }

  lemma {:induction false} IntegerText(f: Formatter, m: Machine, w: string)
    requires m.state == IntegerParameter && '}' !in w
    ensures Exec(f, m, w) == Ok(m.(strNumber := m.strNumber + EncodedDigits(w)))
    decreases |w|
  {
    if w == [] {
      assert m.strNumber + "" == m.strNumber;
    } else {
      var t := Itoa(64 - w[0] as int - 9);
      var m1 := m.(strNumber := m.strNumber + t);
      assert w[0] != '}';
      assert Step(f, m, w[0]) == Ok(m1);
      IntegerText(f, m1, w[1..]);
      assert EncodedDigits(w) == t + EncodedDigits(w[1..]);
      assert (m.strNumber + t) + EncodedDigits(w[1..]) == m.strNumber + (t + EncodedDigits(w[1..]));
    }
  }

  /** %{8} pushes -1: the text of '8' is "-1". */
  lemma IntegerOfEight(f: Formatter, m: Machine, s: string, i: nat)
    requires m.state == Initial && m.strNumber == "" && i + 3 < |s|
    requires s[i] == '%' && s[i + 1] == '{' && s[i + 2] == '8' && s[i + 3] == '}'
    ensures Exec(f, m, s[i..]) == Exec(f, m.(stack := [VInt(-1)] + m.stack), s[i + 4..])
  {
    IntegerOpened(f, m, s, i);
    AtoiOfItoa(-1);
    assert Itoa(-1) == "-1";
    assert "" + Itoa(64 - '8' as int - 9) == "-1";
    IntegerClosed(f, m.(state := IntegerParameter), s, i + 3, "-1", -1);
  }

  /** The %{c of %{c}. */
  lemma IntegerOpened(f: Formatter, m: Machine, s: string, i: nat)
    requires m.state == Initial && m.strNumber == "" && i + 3 < |s|
    requires s[i] == '%' && s[i + 1] == '{' && s[i + 2] != '}'
    ensures Exec(f, m, s[i..]) ==
      Exec(f, m.(state := IntegerParameter, strNumber := "" + Itoa(64 - s[i + 2] as int - 9)), s[i + 3..])
  {
    var m2 := m.(state := IntegerParameter);
    DirectiveAt(f, m, s, i, m2);
    IntegerCharAt(f, m2, s, i + 2);
  }

  /** %{c} with one character c pushes 55 - c: the text of c reads back
      as that number (so %{0} pushes 7 and %{8} pushes -1). */
  lemma OneCharNumber(c: char)
    ensures Atoi("" + Itoa(64 - c as int - 9)) == Some(55 - c as int)
  {
    AtoiOfItoa(64 - c as int - 9);
    assert "" + Itoa(64 - c as int - 9) == Itoa(64 - c as int - 9);
  }

  /** The closing '}' of %{nn}, over the text t of the number v. */
  lemma IntegerClosed(f: Formatter, m: Machine, s: string, i: nat, t: string, v: int)
    requires m.state == IntegerParameter && i < |s| && s[i] == '}' && Atoi(t) == Some(v)
    ensures Exec(f, m.(strNumber := t), s[i..]) ==
      Exec(f, m.(stack := [VInt(v)] + m.stack, strNumber := "", state := Initial), s[i + 1..])
  {
    IntegerCloseAt(f, m.(strNumber := t), s, i, v);
  }

  /** %{} has no digits, which is not a number. */
  lemma EmptyInteger(f: Formatter, m: Machine)
    requires m.state == Initial && m.strNumber == ""
    ensures Exec(f, m, "%{}") == Err(IntegerMsg)
  {
    var s := "%{}";
    assert s[0..] == s;
    DirectiveAt(f, m, s, 0, m.(state := IntegerParameter));
    ExecAt(f, m.(state := IntegerParameter), s, 2);
  }

  // ---------------------------------------------------------------------
  // %c, %i, %p, %'x' and the flags after %:

  /** %c writes U+0080 for the value 0 and faults for every other value. */
  lemma CharDirective(f: Formatter, m: Machine, v: Value, rest: seq<Value>)
    requires m.state == Percent && m.stack == [v] + rest
    ensures Step(f, m, 'c') == if v == VInt(0) then Ok(m.(result := m.result + [CharOf0x80], stack := rest, state := Initial))
      else Panic
  {
  }

  /** %i adds one to the first two arguments (in int64 arithmetic) and
      leaves the others; with fewer than two integer arguments it faults. */
  lemma IncrementArguments(f: Formatter, m: Machine)
    requires m.state == Percent
    ensures var ok := |m.args| >= 2 && m.args[0].VInt? && m.args[1].VInt?;
      Step(f, m, 'i') == if ok then Ok(m.(state := Initial,
        args := [VInt(Wrap64(m.args[0].n + 1)), VInt(Wrap64(m.args[1].n + 1))] + m.args[2..]))
      else Panic
  {
    if |m.args| >= 2 && m.args[0].VInt? && m.args[1].VInt? {
      var a := m.args[0 := VInt(Wrap64(m.args[0].n + 1))];
      assert a[1 := VInt(Wrap64(a[1].n + 1))] ==
        [VInt(Wrap64(m.args[0].n + 1)), VInt(Wrap64(m.args[1].n + 1))] + m.args[2..];
    }
  }

  /** %pN pushes argument N (counted from 1) and faults past the last. */
  lemma PushArgument(f: Formatter, m: Machine, d: char)
    requires m.state == Initial
    ensures var k := d as int - '1' as int;
      Exec(f, m, ['%', 'p', d]) == if 0 <= k < |m.args| then Ok(m.(stack := [m.args[k]] + m.stack)) else Panic
  {
    var s := ['%', 'p', d];
    assert s[0..] == s;
    ExecAt(f, m, s, 0);
    ExecAt(f, m.(state := Percent), s, 1);
    ExecAt(f, m.(state := PushParam), s, 2);
    assert s[3..] == [];
  }

  /** %pN%d writes argument N in decimal. */
  lemma DecimalArgument(f: Formatter, m: Machine, s: string, i: nat, n: int)
    requires m.state == Initial && i + 4 < |s| && s[i] == '%' && s[i + 1] == 'p' && s[i + 3] == '%' && s[i + 4] == 'd'
    requires var k := s[i + 2] as int - '1' as int; 0 <= k < |m.args| && m.args[k] == VInt(n)
    ensures Exec(f, m, s[i..]) == Exec(f, m.(result := m.result + Itoa(n)), s[i + 5..])
  {
    var m3 := m.(stack := [VInt(n)] + m.stack);
    DirectiveAt(f, m, s, i, m.(state := PushParam));
    ArgumentAt(f, m.(state := PushParam), s, i + 2);
    DirectiveAt(f, m3, s, i + 3, m.(result := m.result + Itoa(n)));
  }

  /** %'x' pushes the one-character string x; any other closing character
      is an error. */
  lemma CharConstant(f: Formatter, m: Machine, x: char, y: char)
    requires m.state == Initial
    ensures Exec(f, m, ['%', '\'', x, y]) ==
      if y == '\'' then Ok(m.(stack := [VStr([x])] + m.stack)) else Err(CharCloseMsg)
  {
    var s := ['%', '\'', x, y];
    var m3 := m.(stack := [VStr([x])] + m.stack, state := CharEnd);
    assert s[0..] == s;
    ExecAt(f, m, s, 0);
    ExecAt(f, m.(state := Percent), s, 1);
    ExecAt(f, m.(state := CharStart), s, 2);
    ExecAt(f, m3, s, 3);
    assert s[4..] == [];
  }

  /** The digits of a stretch of flags, in order. */
  function DigitsIn(w: string): (r: string)
    ensures AllDigits(r) && |r| <= |w|
    decreases |w|
  {
    if w == [] then "" else (if IsDigit(w[0]) then [w[0]] else "") + DigitsIn(w[1..])
  }

  /** After %: only digits are kept; '+', '-', '#', ' ', '.' and every
      other character are dropped. */
  lemma {:induction false} FlagsCollected(f: Formatter, m: Machine, w: string)
    requires m.state == ParseFlags && '%' !in w
    ensures Exec(f, m, w) == Ok(m.(format := m.format + DigitsIn(w)))
    decreases |w|
  {
    if w == [] {
      assert m.format + "" == m.format;
    } else {
      var t := if IsDigit(w[0]) then [w[0]] else "";
      var m1 := m.(format := m.format + t);
      assert w[0] != '%';
      if !IsDigit(w[0]) {
        assert m.format + t == m.format;
      }
      assert Step(f, m, w[0]) == Ok(m1);
      FlagsCollected(f, m1, w[1..]);
      assert DigitsIn(w) == t + DigitsIn(w[1..]);
      assert (m.format + t) + DigitsIn(w[1..]) == m.format + (t + DigitsIn(w[1..]));
    }
  }

  /** %: w % formats the top of the stack with the digits of w as the
      Sprintf specification, and clears the flags. */
  lemma FlagsEmitted(f: Formatter, m: Machine, w: string, v: Value, rest: seq<Value>)
    requires m.state == Percent && m.format == "" && m.stack == [v] + rest && '%' !in w
    ensures Exec(f, m, ":" + w + "%") ==
      Ok(m.(result := m.result + Sprintf(f, DigitsIn(w), v), stack := rest, state := Initial))
  {
    var m1 := m.(state := ParseFlags);
    assert Exec(f, m, ":") == Ok(m1);
    FlagsCollected(f, m1, w);
    ExecAppend(f, m, ":", w);
    ExecAppend(f, m, ":" + w, "%");
    assert "" + DigitsIn(w) == DigitsIn(w);
  }
}
