/** Runs of the capability interpreter over stretches of a template:
    Exec, how it composes, and its effect one directive at a time at a
    position of a template. */
module CapabilityTrace {
  import opened Outcomes
  import opened Strconv
  import opened Capability

  /** The machine after a stretch of template, or the outcome that ended
      the call inside it. */
  function Exec(f: Formatter, m: Machine, s: string): Result<Machine>
    decreases |s|, 1
  {
    if s == [] then Ok(m) else Continue(f, m, s)
  }

  /** Exec of a non-empty stretch: the first step, then the rest. */
  function Continue(f: Formatter, m: Machine, s: string): Result<Machine>
    requires s != []
    decreases |s|, 0
  {
    var next := Step(f, m, s[0]);
    if next.Ok? then Exec(f, next.value, s[1..]) else next
  }

  /** Run returns the output of the machine Exec ends with. */
  lemma {:induction false} RunIsExec(f: Formatter, m: Machine, s: string)
    ensures var e := Exec(f, m, s);
      Run(f, m, s) == if e.Ok? then Ok(e.value.result) else Halt(e)
    decreases |s|
  {
    if s != [] {
      var next := Step(f, m, s[0]);
      if next.Ok? {
        RunIsExec(f, next.value, s[1..]);
      }
    }
  }

  /** A template is run piece by piece; an error or fault in the first
      piece ends the call there. */
  lemma {:induction false} ExecAppend(f: Formatter, m: Machine, s: string, t: string)
    ensures var e := Exec(f, m, s);
      Exec(f, m, s + t) == if e.Ok? then Exec(f, e.value, t) else e
    decreases |s|
  {
    if s == [] {
      assert s + t == t;
    } else {
      assert (s + t)[0] == s[0];
      assert (s + t)[1..] == s[1..] + t;
      var next := Step(f, m, s[0]);
      if next.Ok? {
        ExecAppend(f, next.value, s[1..], t);
      }
    }
  }

  /** One step of Exec at position i of a template. */
  lemma ExecAt(f: Formatter, m: Machine, s: string, i: nat)
    requires i < |s|
    ensures var next := Step(f, m, s[i]);
      Exec(f, m, s[i..]) == if next.Ok? then Exec(f, next.value, s[i + 1..]) else next
  {
    assert s[i..][0] == s[i];
    assert s[i..][1..] == s[i + 1..];
  }

  /** The template s holds the text w at position i. */
  predicate At(s: string, i: nat, w: string) {
    i + |w| <= |s| && forall k :: i <= k < i + |w| ==> s[k] == w[k - i]
  }

  lemma AtSplit(s: string, i: nat, a: string, b: string)
    requires At(s, i, a + b)
    ensures At(s, i, a) && At(s, i + |a|, b)
  {
    forall k | i <= k < i + |a|
      ensures s[k] == a[k - i]
    {
      assert s[k] == (a + b)[k - i];
    }
    forall k | i + |a| <= k < i + |a| + |b|
      ensures s[k] == b[k - (i + |a|)]
    {
      assert s[k] == (a + b)[k - i];
    }
  }

  lemma AtSlice(s: string, i: nat, w: string)
    requires At(s, i, w)
    ensures s[i..i + |w|] == w
  {
    forall k | 0 <= k < |w|
      ensures s[i..i + |w|][k] == w[k]
    {
      assert s[i..i + |w|][k] == s[i + k];
    }
  }

  /** A directive %c at position i, with the effect m' of c. */
  lemma DirectiveAt(f: Formatter, m: Machine, s: string, i: nat, m': Machine)
    requires m.state == Initial && i + 1 < |s| && s[i] == '%'
    requires Directive(f, m.(state := Percent), s[i + 1]) == Ok(m')
    ensures Exec(f, m, s[i..]) == Exec(f, m', s[i + 2..])
  {
    ExecAt(f, m, s, i);
    ExecAt(f, m.(state := Percent), s, i + 1);
  }

  /** The digit after %p at position i, naming an argument. */
  lemma ArgumentAt(f: Formatter, m: Machine, s: string, i: nat)
    requires m.state == PushParam && i < |s| && 0 <= s[i] as int - '1' as int < |m.args|
    ensures Exec(f, m, s[i..]) ==
      Exec(f, m.(stack := [m.args[s[i] as int - '1' as int]] + m.stack, state := Initial), s[i + 1..])
  {
    ExecAt(f, m, s, i);
  }

  /** A literal character at position i. */
  lemma LiteralAt(f: Formatter, m: Machine, s: string, i: nat)
    requires m.state == Initial && i < |s| && s[i] != '%'
    ensures Exec(f, m, s[i..]) == Exec(f, m.(result := m.result + [s[i]]), s[i + 1..])
  {
    ExecAt(f, m, s, i);
  }

  /** A character of %{nn} at position i. */
  lemma IntegerCharAt(f: Formatter, m: Machine, s: string, i: nat)
    requires m.state == IntegerParameter && i < |s| && s[i] != '}'
    ensures Exec(f, m, s[i..]) == Exec(f, m.(strNumber := m.strNumber + Itoa(64 - s[i] as int - 9)), s[i + 1..])
  {
    ExecAt(f, m, s, i);
  }

  /** The '}' that closes %{nn} at position i, over a number. */
  lemma IntegerCloseAt(f: Formatter, m: Machine, s: string, i: nat, v: int)
    requires m.state == IntegerParameter && i < |s| && s[i] == '}' && Atoi(m.strNumber) == Some(v)
    ensures Exec(f, m, s[i..]) == Exec(f, m.(stack := [VInt(v)] + m.stack, strNumber := "", state := Initial), s[i + 1..])
  {
    ExecAt(f, m, s, i);
  }
}
