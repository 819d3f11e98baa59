/** The parameterised-capability interpreter of terminfo/terminfo.go
    (Terminfo.ApplyCapability): a character-driven state machine over the
    template string of a string capability, with a value stack, 26 static
    and 26 dynamic integer variables, a nesting counter for %? ... %; and
    accumulators for %{nn} and for the flags after %:. It implements a subset
    of the "Parameterized Strings" language of the terminfo(5) manual page,
    with the source's own deviations from it.

    Step gives the effect of one character; Run folds it over a template;
    Apply is the whole call. The method ApplyCapability is the imperative
    loop of the source, proved equal to Apply. */
module Capability {
  import opened Outcomes
  import opened Strconv
  import opened TerminfoDecode

  /** The values the stack and the arguments hold: Go ints and strings. */
  datatype Value = VInt(n: int) | VStr(s: string)

  /** fmt.Sprintf("%" + spec, v) for the Go formatting verbs, a foreign
      library: the model takes it as a parameter. */
  type Formatter = (string, Value) -> string

  /** The parser states of the source, in the source's order. The state
      Condition is declared there but no character leads to it. */
  datatype State =
    | Initial | Percent | Condition | PushParam | SetParam | GetParam
    | CharStart | CharEnd | IntegerParameter | ParseFlags
    | SkipThenExpr | IfExprPercent | ElseExpr | ElsePercent

  const UnsupportedMsg: string := "Your terminal does not support such capability"
  const CharCloseMsg: string := "a char must be closed with '"
  const IntegerMsg: string := "{nn} must be integer number"
  const GetLetterMsg: string := "'g' must be followed with [a-zA-Z]"
  const SetLetterMsg: string := "'P' must be followed with [a-zA-Z]"

  /** What %c writes for the value 0: the character U+0080. */
  const CharOf0x80: char := '\U{80}'

  /** The number of static and of dynamic variables. */
  const VariableCount: nat := 26

  /** Everything ApplyCapability keeps while it scans a template. The stack
      has its top at index 0. */
  datatype Machine = Machine(
    state: State,
    result: string,
    format: string,
    strNumber: string,
    stack: seq<Value>,
    statics: seq<int>,
    dynamics: seq<int>,
    level: int,
    args: seq<Value>)

  function Zeros(): (z: seq<int>)
    ensures |z| == VariableCount && forall i :: 0 <= i < |z| ==> z[i] == 0
  {
    seq(VariableCount, _ => 0)
  }

  /** The machine at the start of every call: all variables are zero. */
  function Start(args: seq<Value>): Machine {
    Machine(Initial, "", "", "", [], Zeros(), Zeros(), 0, args)
  }

  /** Sprintf with the one verb this model defines: %d of an integer is its
      decimal text. */
  function Sprintf(f: Formatter, spec: string, v: Value): string {
    if spec == "d" && v.VInt? then Itoa(v.n) else f(spec, v)
  }

  /** Go's 64-bit int wrap-around: the int64 value congruent to x modulo
      2^64. */
  function Wrap64(x: int): (r: int)
    ensures MinInt64 <= r <= MaxInt64
    ensures (r - x) % 0x1_0000_0000_0000_0000 == 0
    ensures MinInt64 <= x <= MaxInt64 ==> r == x
  {
    (x - MinInt64) % 0x1_0000_0000_0000_0000 + MinInt64
  }

  /** The increment of %i at the largest int64 gives the least one. */
  lemma IncrementWraps()
    ensures Wrap64(MaxInt64 + 1) == MinInt64
  {
  }

  function Abs(x: int): nat {
    if x < 0 then -x else x
  }

  /** The quotient and the remainder of a by b, by repeated subtraction. */
  function NatQuot(a: nat, b: nat): nat
    requires b > 0
    decreases a
  {
    if a < b then 0 else 1 + NatQuot(a - b, b)
  }

  function NatRem(a: nat, b: nat): nat
    requires b > 0
    decreases a
  {
    if a < b then a else NatRem(a - b, b)
  }

  lemma {:induction false} NatDivision(a: nat, b: nat)
    requires b > 0
    ensures a == NatQuot(a, b) * b + NatRem(a, b) && NatRem(a, b) < b
    decreases a
  {
    if a >= b {
      NatDivision(a - b, b);
      assert a == (NatQuot(a - b, b) + 1) * b + NatRem(a - b, b);
    }
  }

  /** Go's % on ints: truncated division, so the remainder takes the sign
      of the dividend. */
  function GoRem(a: int, b: int): int
    requires b != 0
  {
    if a >= 0 then NatRem(a, Abs(b)) else 0 - NatRem(-a, Abs(b)) as int
  }

  /** The remainder has the sign of the dividend, and its magnitude is what
      is left of |a| after taking out |b| as often as it fits: division
      truncates toward zero. */
  lemma GoRemTruncates(a: int, b: int)
    requires b != 0
    ensures Abs(GoRem(a, b)) < Abs(b)
    ensures a >= 0 ==> GoRem(a, b) >= 0
    ensures a < 0 ==> GoRem(a, b) <= 0
    ensures Abs(a) == NatQuot(Abs(a), Abs(b)) * Abs(b) + Abs(GoRem(a, b))
  {
    NatDivision(Abs(a), Abs(b));
  }

  /** The comparisons %O %A %= %< %>, with v1 the top of the stack and v2 the
      value below it. */
  function Compare(op: char, v1: int, v2: int): bool {
    match op
    case 'O' => v1 > 0 || v2 > 0
    case 'A' => v1 > 0 && v2 > 0
    case '=' => v1 == v2
    case '<' => v1 < v2
    case _ => v1 > v2
  }

  predicate IsLower(c: char) {
    'a' <= c <= 'z'
  }

  predicate IsUpper(c: char) {
    'A' <= c <= 'Z'
  }

  /** The character after a '%' in the Percent state. */
  function Directive(f: Formatter, m: Machine, cur: char): Result<Machine>
    requires m.state == Percent
  {
    match cur
    case '%' => Ok(m.(result := m.result + "%", state := Initial))
    case 'x' | 'X' | 'o' | 's' | 'd' =>
      if m.stack == [] then Underflow
      else Ok(m.(result := m.result + Sprintf(f, [cur], m.stack[0]), stack := m.stack[1..], state := Initial))
    case 'c' =>
      if m.stack == [] then Underflow
      else if m.stack[0] == VInt(0) then Ok(m.(result := m.result + [CharOf0x80], stack := m.stack[1..], state := Initial))
      else Panic
    case 'p' => Ok(m.(state := PushParam))
    case 'P' => Ok(m.(state := SetParam))
    case 'l' =>
      if m.stack == [] then Underflow
      else Ok(m.(stack := [VInt(|Sprintf(f, "s", m.stack[0])|)] + m.stack[1..], state := Initial))
    case 'g' => Ok(m.(state := GetParam))
    case '<' | 'O' | 'A' | '=' | '>' =>
      if m.stack == [] then Underflow
      else if !m.stack[0].VInt? then Panic
      else if |m.stack| < 2 then Underflow
      else if !m.stack[1].VInt? then Panic
      else
        var bit := if Compare(cur, m.stack[0].n, m.stack[1].n) then 1 else 0;
        Ok(m.(stack := [VInt(bit)] + m.stack[2..], state := Initial))
    case '\'' => Ok(m.(state := CharStart))
    case '+' | '-' | '/' | '*' | '^' | '&' | '|' => Ok(m)
    case 'm' =>
      if m.stack == [] then Underflow
      else if !m.stack[0].VInt? then Panic
      else if |m.stack| < 2 then Underflow
      else if !m.stack[1].VInt? || m.stack[1].n == 0 then Panic
      else Ok(m.(stack := [VInt(GoRem(m.stack[0].n, m.stack[1].n))] + m.stack[2..]))
    case '!' =>
      if m.stack == [] then Underflow
      else if !m.stack[0].VInt? then Panic
      else Ok(m.(stack := [VInt(if m.stack[0].n > 0 then 0 else 1)] + m.stack[1..]))
    case '~' =>
      if m.stack == [] then Underflow
      else if !m.stack[0].VInt? then Panic
      else Ok(m.(stack := [VInt(-m.stack[0].n - 1)] + m.stack[1..]))
    case '{' => Ok(m.(state := IntegerParameter))
    case 'i' =>
      if |m.args| < 1 || !m.args[0].VInt? then Panic
      else if |m.args| < 2 || !m.args[1].VInt? then Panic
      else
        var a := m.args[0 := VInt(Wrap64(m.args[0].n + 1))];
        Ok(m.(args := a[1 := VInt(Wrap64(a[1].n + 1))], state := Initial))
    case ':' => Ok(m.(state := ParseFlags))
    case ';' => Ok(m)
    case '?' => Ok(m.(state := Initial))
    case 't' =>
      if m.stack == [] then Underflow
      else Ok(m.(stack := m.stack[1..], state := if m.stack[0] == VInt(0) then SkipThenExpr else Initial))
    case 'e' => Ok(m.(state := ElseExpr))
    case _ => Ok(m.(state := Initial))
  }

  /** Copying text, until a '%'. */
  function LiteralStep(m: Machine, cur: char): Result<Machine>
    requires m.state == Initial
  {
    if cur == '%' then Ok(m.(state := Percent)) else Ok(m.(result := m.result + [cur]))
  }

  /** The flags after %: are collected up to the '%' that writes them. */
  function FlagsStep(f: Formatter, m: Machine, cur: char): Result<Machine>
    requires m.state == ParseFlags
  {
    if IsDigit(cur) then Ok(m.(format := m.format + [cur]))
    else if cur == '%' then
      if m.stack == [] then Underflow
      else Ok(m.(result := m.result + Sprintf(f, m.format, m.stack[0]), stack := m.stack[1..], state := Initial, format := ""))
    else Ok(m)
  }

  /** The characters of %{nn}: each appends the decimal text of 55 - c, and
      the closing '}' parses what was collected. */
  function IntegerStep(m: Machine, cur: char): Result<Machine>
    requires m.state == IntegerParameter
  {
    if cur == '}' then
      match Atoi(m.strNumber)
      case None => Err(IntegerMsg)
      case Some(v) => Ok(m.(stack := [VInt(v)] + m.stack, strNumber := "", state := Initial))
    else Ok(m.(strNumber := m.strNumber + Itoa(64 - cur as int - 9)))
  }

  /** The letter after %g. */
  function GetStep(m: Machine, cur: char): Result<Machine>
    requires m.state == GetParam
  {
    if IsLower(cur) then
      var k := cur as int - 'a' as int;
      if k < |m.dynamics| then Ok(m.(stack := [VInt(m.dynamics[k])] + m.stack, state := Initial)) else Panic
    else if IsUpper(cur) then
      var k := cur as int - 'B' as int;
      if 0 <= k < |m.statics| then Ok(m.(stack := [VInt(m.statics[k])] + m.stack, state := Initial)) else Panic
    else Err(GetLetterMsg)
  }

  /** The letter after %P, which pops first. */
  function SetStep(m: Machine, cur: char): Result<Machine>
    requires m.state == SetParam
  {
    if m.stack == [] then Underflow
    else if IsLower(cur) then
      var k := cur as int - 'a' as int;
      if k < |m.dynamics| && m.stack[0].VInt? then
        Ok(m.(stack := m.stack[1..], dynamics := m.dynamics[k := m.stack[0].n], state := Initial))
      else Panic
    else if IsUpper(cur) then
      var k := cur as int - 'B' as int;
      if 0 <= k < |m.statics| && m.stack[0].VInt? then
        Ok(m.(stack := m.stack[1..], statics := m.statics[k := m.stack[0].n], state := Initial))
      else Panic
    else Err(SetLetterMsg)
  }

  /** The digit after %p. */
  function PushStep(m: Machine, cur: char): Result<Machine>
    requires m.state == PushParam
  {
    var k := cur as int - '1' as int;
    if 0 <= k < |m.args| then Ok(m.(stack := [m.args[k]] + m.stack, state := Initial)) else Panic
  }

  /** A then-part being skipped after a false %t. */
  function SkipThenStep(m: Machine, cur: char): Result<Machine>
    requires m.state == SkipThenExpr || m.state == IfExprPercent
  {
    if m.state == SkipThenExpr then
      if cur == '%' then Ok(m.(state := IfExprPercent)) else Ok(m)
    else if cur == ';' then
      if m.level == 0 then Ok(m.(state := Initial)) else Ok(m.(level := m.level - 1, state := SkipThenExpr))
    else if cur == 'e' && m.level == 0 then Ok(m.(state := Initial))
    else if cur == '?' then Ok(m.(level := m.level + 1, state := SkipThenExpr))
    else Ok(m.(state := SkipThenExpr))
  }

  /** An else-part being skipped after an executed then-part. */
  function SkipElseStep(m: Machine, cur: char): Result<Machine>
    requires m.state == ElseExpr || m.state == ElsePercent
  {
    if m.state == ElseExpr then
      if cur == '%' then Ok(m.(state := ElsePercent)) else Ok(m)
    else if cur == ';' then
      if m.level == 0 then Ok(m.(state := Initial)) else Ok(m.(level := m.level - 1, state := ElseExpr))
    else if cur == '?' then Ok(m.(level := m.level + 1, state := ElseExpr))
    else Ok(m.(state := ElseExpr))
  }

  /** The effect of one template character. */
  function Step(f: Formatter, m: Machine, cur: char): Result<Machine> {
    match m.state
    case Initial => LiteralStep(m, cur)
    case Percent => Directive(f, m, cur)
    case Condition => Ok(m)
    case ParseFlags => FlagsStep(f, m, cur)
    case CharStart => Ok(m.(stack := [VStr([cur])] + m.stack, state := CharEnd))
    case CharEnd => if cur != '\'' then Err(CharCloseMsg) else Ok(m.(state := Initial))
    case IntegerParameter => IntegerStep(m, cur)
    case GetParam => GetStep(m, cur)
    case SetParam => SetStep(m, cur)
    case PushParam => PushStep(m, cur)
    case SkipThenExpr | IfExprPercent => SkipThenStep(m, cur)
    case ElseExpr | ElsePercent => SkipElseStep(m, cur)
  }

  /** What a step that does not continue makes of the whole call. */
  function Halt(next: Result<Machine>): (r: Result<string>)
    requires !next.Ok?
    ensures !r.Ok?
  {
    match next
    case Err(e) => Err(e)
    case Panic => Panic
    case Underflow => Underflow
  }

  /** The machine run over the rest of a template; the first error or
      fault ends the call, and the end of the template returns the output
      whatever state the machine is in. */
  function Run(f: Formatter, m: Machine, s: string): Result<string>
    decreases |s|
  {
    if s == [] then Ok(m.result)
    else
      var next := Step(f, m, s[0]);
      if next.Ok? then Run(f, next.value, s[1..]) else Halt(next)
  }

  /** ApplyCapability as a function of its inputs. */
  function Apply(f: Formatter, ti: Terminfo, capability: string, args: seq<Value>): Result<string> {
    if capability in ti.strings then Run(f, Start(args), ti.strings[capability]) else Err(UnsupportedMsg)
  }

  // ---------------------------------------------------------------------
  // The imperative interpreter

  /** The static (A-Z) and dynamic (a-z) variables of one call. */
  class TerminfoVariables {
    const statics: array<int>
    const dynamics: array<int>

    ghost predicate Valid()
      reads this
    {
      statics.Length == VariableCount && dynamics.Length == VariableCount && statics != dynamics
    }

    constructor ()
      ensures Valid() && fresh(statics) && fresh(dynamics)
      ensures statics[..] == Zeros() && dynamics[..] == Zeros()
    {
      statics := new int[VariableCount](_ => 0);
      dynamics := new int[VariableCount](_ => 0);
    }
  }

  /** A step carried out imperatively agrees with Step: either it goes on
      with the machine m', or it stops the call with the outcome in halt. */
  predicate Follows(next: Result<Machine>, m': Machine, halt: Option<Result<string>>) {
    if next.Ok? then halt.None? && next.value == m' else halt == Some(Halt(next))
  }

  lemma RunStep(f: Formatter, m: Machine, s: string, i: nat)
    requires i < |s|
    ensures var next := Step(f, m, s[i]);
      Run(f, m, s[i..]) == if next.Ok? then Run(f, next.value, s[i + 1..]) else Halt(next)
  {
    assert s[i..][1..] == s[i + 1..];
  }

  /** The pops and pushes of %< %O %A %= %> and %m. */
  method BinaryDirective(f: Formatter, cur: char, stack: seq<Value>, ghost m: Machine)
    returns (state': State, stack': seq<Value>, halt: Option<Result<string>>)
    requires cur in "<OA=>m" && m.state == Percent && m.stack == stack
    ensures Follows(Step(f, m, cur), m.(state := state', stack := stack'), halt)
  {
    state', stack', halt := Percent, stack, None;
    if stack' == [] {
      halt := Some(Underflow);
      return;
    }
    if !stack'[0].VInt? {
      halt := Some(Panic);
      return;
    }
    var v1 := stack'[0].n;
    stack' := stack'[1..];
    if stack' == [] {
      halt := Some(Underflow);
      return;
    }
    if !stack'[0].VInt? || (cur == 'm' && stack'[0].n == 0) {
      halt := Some(Panic);
      return;
    }
    var v2 := stack'[0].n;
    stack' := stack'[1..];
    if cur == 'm' {
      stack' := [VInt(GoRem(v1, v2))] + stack';
    } else if Compare(cur, v1, v2) {
      stack' := [VInt(1)] + stack';
      state' := Initial;
    } else {
      stack' := [VInt(0)] + stack';
      state' := Initial;
    }
  }

  /** The character after a '%'. */
  method PercentDirective(f: Formatter, cur: char, result: string, stack: seq<Value>, args: seq<Value>, ghost m: Machine)
    returns (state': State, result': string, stack': seq<Value>, args': seq<Value>, halt: Option<Result<string>>)
    requires m.state == Percent && m.result == result && m.stack == stack && m.args == args
    ensures Follows(Step(f, m, cur), m.(state := state', result := result', stack := stack', args := args'), halt)
  {
    state', result', stack', args', halt := Percent, result, stack, args, None;
    match cur {
      case '%' =>
        result' := result' + "%";
        state' := Initial;
      case 'x' | 'X' | 'o' | 's' | 'd' =>
        if stack' == [] {
          halt := Some(Underflow);
          return;
        }
        result' := result' + Sprintf(f, [cur], stack'[0]);
        stack' := stack'[1..];
        state' := Initial;
      case 'c' =>
        if stack' == [] {
          halt := Some(Underflow);
          return;
        }
        var value := stack'[0];
        stack' := stack'[1..];
        if value != VInt(0) {
          halt := Some(Panic);
          return;
        }
        result' := result' + [CharOf0x80];
        state' := Initial;
      case 'p' =>
        state' := PushParam;
      case 'P' =>
        state' := SetParam;
      case 'l' =>
        if stack' == [] {
          halt := Some(Underflow);
          return;
        }
        stack' := [VInt(|Sprintf(f, "s", stack'[0])|)] + stack'[1..];
        state' := Initial;
      case 'g' =>
        state' := GetParam;
      case '<' | 'O' | 'A' | '=' | '>' | 'm' =>
        state', stack', halt := BinaryDirective(f, cur, stack', m);
      case '\'' =>
        state' := CharStart;
      case '+' | '-' | '/' | '*' | '^' | '&' | '|' =>
      case '!' =>
        if stack' == [] {
          halt := Some(Underflow);
          return;
        }
        if !stack'[0].VInt? {
          halt := Some(Panic);
          return;
        }
        if stack'[0].n > 0 {
          stack' := [VInt(0)] + stack'[1..];
        } else {
          stack' := [VInt(1)] + stack'[1..];
        }
      case '~' =>
        if stack' == [] {
          halt := Some(Underflow);
          return;
        }
        if !stack'[0].VInt? {
          halt := Some(Panic);
          return;
        }
        stack' := [VInt(-stack'[0].n - 1)] + stack'[1..];
      case '{' =>
        state' := IntegerParameter;
      case 'i' =>
        if |args'| < 1 || !args'[0].VInt? {
          halt := Some(Panic);
          return;
        }
        args' := args'[0 := VInt(Wrap64(args'[0].n + 1))];
        if |args'| < 2 || !args'[1].VInt? {
          halt := Some(Panic);
          return;
        }
        args' := args'[1 := VInt(Wrap64(args'[1].n + 1))];
        state' := Initial;
      case ':' =>
        state' := ParseFlags;
      case ';' =>
      case '?' =>
        state' := Initial;
      case 't' =>
        if stack' == [] {
          halt := Some(Underflow);
          return;
        }
        var value := stack'[0];
        stack' := stack'[1..];
        if value == VInt(0) {
          state' := SkipThenExpr;
        } else {
          state' := Initial;
        }
      case 'e' =>
        state' := ElseExpr;
      case _ =>
        state' := Initial;
    }
  }

  /** %g: push a variable. */
  method GetVariable(f: Formatter, variables: TerminfoVariables, cur: char, stack: seq<Value>, ghost m: Machine)
    returns (stack': seq<Value>, halt: Option<Result<string>>)
    requires variables.Valid() && m.state == GetParam && m.stack == stack
    requires m.statics == variables.statics[..] && m.dynamics == variables.dynamics[..]
    ensures Follows(Step(f, m, cur), m.(state := Initial, stack := stack'), halt)
  {
    stack', halt := stack, None;
    if IsLower(cur) {
      stack' := [VInt(variables.dynamics[cur as int - 'a' as int])] + stack';
    } else if IsUpper(cur) {
      var k := cur as int - 'B' as int;
      if k < 0 {
        halt := Some(Panic);
        return;
      }
      stack' := [VInt(variables.statics[k])] + stack';
    } else {
      halt := Some(Err(GetLetterMsg));
    }
  }

  /** %P: pop the top of the stack into a variable. */
  method SetVariable(f: Formatter, variables: TerminfoVariables, cur: char, stack: seq<Value>, ghost m: Machine)
    returns (stack': seq<Value>, halt: Option<Result<string>>)
    requires variables.Valid() && m.state == SetParam && m.stack == stack
    requires m.statics == variables.statics[..] && m.dynamics == variables.dynamics[..]
    modifies variables.statics, variables.dynamics
    ensures Follows(Step(f, m, cur),
      m.(state := Initial, stack := stack', statics := variables.statics[..], dynamics := variables.dynamics[..]), halt)
  {
    stack', halt := stack, None;
    if stack' == [] {
      halt := Some(Underflow);
      return;
    }
    var value := stack'[0];
    stack' := stack'[1..];
    if IsLower(cur) {
      if !value.VInt? {
        halt := Some(Panic);
        return;
      }
      variables.dynamics[cur as int - 'a' as int] := value.n;
    } else if IsUpper(cur) {
      var k := cur as int - 'B' as int;
      if k < 0 || !value.VInt? {
        halt := Some(Panic);
        return;
      }
      variables.statics[k] := value.n;
    } else {
      halt := Some(Err(SetLetterMsg));
    }
  }

  /** The characters of a %? ... %; branch that is being skipped: only
      %?, %; and, in a then-part, %e matter, and nesting is counted. */
  method SkipConditional(f: Formatter, cur: char, state: State, level: int, ghost m: Machine)
    returns (state': State, level': int)
    requires state in {SkipThenExpr, IfExprPercent, ElseExpr, ElsePercent}
    requires m.state == state && m.level == level
    ensures Step(f, m, cur) == Ok(m.(state := state', level := level'))
  {
    state', level' := state, level;
    if state == SkipThenExpr {
      if cur == '%' {
        state' := IfExprPercent;
      }
    } else if state == IfExprPercent {
      if cur == ';' {
        if level' == 0 {
          state' := Initial;
        } else {
          level' := level' - 1;
          state' := SkipThenExpr;
        }
      } else if cur == 'e' && level' == 0 {
        state' := Initial;
      } else if cur == '?' {
        level' := level' + 1;
        state' := SkipThenExpr;
      } else {
        state' := SkipThenExpr;
      }
    } else if state == ElseExpr {
      if cur == '%' {
        state' := ElsePercent;
      }
    } else {
      if cur == ';' {
        if level' == 0 {
          state' := Initial;
        } else {
          level' := level' - 1;
          state' := ElseExpr;
        }
      } else if cur == '?' {
        level' := level' + 1;
        state' := ElseExpr;
      } else {
        state' := ElseExpr;
      }
    }
  }

  /** One character of the template in the state the loop is in: the body
      of the source's loop, proved to agree with Step. */
  method ExecuteStep(f: Formatter, variables: TerminfoVariables, cur: char, state: State, result: string,
                     format: string, strNumber: string, stack: seq<Value>, level: int, args: seq<Value>, ghost m: Machine)
    returns (state': State, result': string, format': string, strNumber': string, stack': seq<Value>,
             level': int, args': seq<Value>, halt: Option<Result<string>>)
    requires variables.Valid()
    requires m == Machine(state, result, format, strNumber, stack,
      variables.statics[..], variables.dynamics[..], level, args)
    modifies variables.statics, variables.dynamics
    ensures Follows(Step(f, m, cur), Machine(state', result', format', strNumber', stack',
      variables.statics[..], variables.dynamics[..], level', args'), halt)
  {
    state', result', format', strNumber', stack', level', args', halt :=
      state, result, format, strNumber, stack, level, args, None;
    match state {
      case Initial =>
        if cur == '%' {
          state' := Percent;
        } else {
          result' := result + [cur];
        }
      case Percent =>
        state', result', stack', args', halt := PercentDirective(f, cur, result, stack, args, m);
      case Condition =>
      case ParseFlags =>
        if IsDigit(cur) {
          format' := format + [cur];
        } else if cur == '%' {
          if stack == [] {
            halt := Some(Underflow);
            return;
          }
          result' := result + Sprintf(f, format, stack[0]);
          stack' := stack[1..];
          state' := Initial;
          format' := "";
        }
      case CharStart =>
        stack' := [VStr([cur])] + stack;
        state' := CharEnd;
      case CharEnd =>
        if cur != '\'' {
          halt := Some(Err(CharCloseMsg));
          return;
        }
        state' := Initial;
      case IntegerParameter =>
        if cur == '}' {
          var n := Atoi(strNumber);
          if n.None? {
            halt := Some(Err(IntegerMsg));
            return;
          }
          stack' := [VInt(n.value)] + stack;
          strNumber' := "";
          state' := Initial;
        } else {
          strNumber' := strNumber + Itoa(64 - cur as int - 9);
        }
      case GetParam =>
        stack', halt := GetVariable(f, variables, cur, stack, m);
        state' := Initial;
      case SetParam =>
        stack', halt := SetVariable(f, variables, cur, stack, m);
        state' := Initial;
      case PushParam =>
        var k := cur as int - '1' as int;
        if k < 0 || k >= |args| {
          halt := Some(Panic);
          return;
        }
        stack' := [args[k]] + stack;
        state' := Initial;
      case SkipThenExpr | IfExprPercent | ElseExpr | ElsePercent =>
        state', level' := SkipConditional(f, cur, state, level, m);
    }
  }

  /** Terminfo.ApplyCapability for the capability named, with the given
      arguments and formatting function. */
  method ApplyCapability(f: Formatter, ti: Terminfo, capability: string, args: seq<Value>) returns (r: Result<string>)
    ensures r == Apply(f, ti, capability, args)
  {
    var result := "";
    var format := "";
    var strNumber := "";
    var state := Initial;
    var stack: seq<Value> := [];
    var variables := new TerminfoVariables();
    var ifExprNestedLevel := 0;
    var args' := args;

    if capability !in ti.strings {
      return Err(UnsupportedMsg);
    }
    var s := ti.strings[capability];
    var i := 0;
    while i < |s|
      invariant 0 <= i <= |s|
      invariant variables.Valid()
      invariant Run(f, Start(args), s) == Run(f, Machine(state, result, format, strNumber, stack,
        variables.statics[..], variables.dynamics[..], ifExprNestedLevel, args'), s[i..])
    {
      ghost var m := Machine(state, result, format, strNumber, stack,
        variables.statics[..], variables.dynamics[..], ifExprNestedLevel, args');
      RunStep(f, m, s, i);
      var halt;
      state, result, format, strNumber, stack, ifExprNestedLevel, args', halt :=
        ExecuteStep(f, variables, s[i], state, result, format, strNumber, stack, ifExprNestedLevel, args', m);
      if halt.Some? {
        return halt.value;
      }
      i := i + 1;
    }
    return Ok(result);
  }
}
