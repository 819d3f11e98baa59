/** The two conversions of Go's strconv package that the capability
    interpreter relies on, for a 64-bit `int`: Itoa (decimal text of an
    integer) and Atoi (parse an optionally signed decimal integer). */
module Strconv {
  import opened Outcomes

  const MinInt64: int := -0x8000_0000_0000_0000
  const MaxInt64: int := 0x7FFF_FFFF_FFFF_FFFF

  predicate IsDigit(c: char) {
    '0' <= c <= '9'
  }

  predicate AllDigits(s: string) {
    forall i :: 0 <= i < |s| ==> IsDigit(s[i])
  }

  function DigitChar(d: nat): (c: char)
    requires d < 10
    ensures IsDigit(c) && c as int - '0' as int == d
  {
    ('0' as int + d) as char
  }

  /** n / 10, by repeated subtraction. */
  function Tens(n: nat): nat {
    if n < 10 then 0 else 1 + Tens(n - 10)
  }

  lemma {:induction false} TensBounds(n: nat)
    ensures 10 * Tens(n) <= n < 10 * Tens(n) + 10
  {
    if n >= 10 {
      TensBounds(n - 10);
    }
  }

  /** Decimal digits of n, most significant first. */
  function Digits(n: nat): string
    decreases n
  {
    if n < 10 then [DigitChar(n)]
    else
      TensBounds(n);
      Digits(Tens(n)) + [DigitChar(n - 10 * Tens(n))]
  }

  /** The digits are at least one, all decimal, and without a leading zero. */
  lemma {:induction false} DigitsShape(n: nat)
    ensures |Digits(n)| >= 1 && AllDigits(Digits(n))
    ensures Digits(n)[0] == '0' ==> n == 0
    decreases n
  {
    if n >= 10 {
      TensBounds(n);
      DigitsShape(Tens(n));
    }
  }

  /** strconv.Itoa: a leading '-' for negative numbers, then the digits. */
  function Itoa(n: int): string {
    if n < 0 then "-" + Digits(-n) else Digits(n)
  }

  /** The value of a run of decimal digits. */
  function DigitsValue(s: string): nat
    requires AllDigits(s)
    decreases |s|
  {
    if s == [] then 0
    else DigitsValue(s[..|s| - 1]) * 10 + (s[|s| - 1] as int - '0' as int)
  }

  /** The text after an optional leading sign. */
  function Unsigned(s: string): (u: string)
    ensures |u| <= |s| && (|s| >= 1 && s[0] != '-' && s[0] != '+' ==> u == s)
  {
    if |s| >= 1 && (s[0] == '-' || s[0] == '+') then s[1..] else s
  }

  /** strconv.Atoi with a 64-bit int: an optional sign, at least one digit,
      nothing else, and a value inside the int64 range. The value is the
      digits' value, negated after a '-'. */
  function Atoi(s: string): (r: Option<int>)
    ensures r.Some? ==> MinInt64 <= r.value <= MaxInt64
    ensures r.Some? ==> |s| >= 1 && (IsDigit(s[0]) || s[0] == '-' || s[0] == '+')
    ensures r.Some? <==>
      && |Unsigned(s)| >= 1 && AllDigits(Unsigned(s))
      && (if s[0] == '-' then DigitsValue(Unsigned(s)) <= -MinInt64 else DigitsValue(Unsigned(s)) <= MaxInt64)
    ensures r.Some? ==>
      r.value == if s[0] == '-' then 0 - DigitsValue(Unsigned(s)) as int else DigitsValue(Unsigned(s)) as int
  {
    if |s| == 0 then None
    else
      var body := if s[0] == '-' || s[0] == '+' then s[1..] else s;
      if |body| == 0 || !AllDigits(body) then None
      else
        var v: int := if s[0] == '-' then 0 - DigitsValue(body) as int else DigitsValue(body) as int;
        if MinInt64 <= v <= MaxInt64 then Some(v) else None
  }

  /** What Atoi refuses: the empty text, a lone sign, a sign or any other
      non-digit after the first character (as in "7-1"). */
  lemma AtoiRejects(s: string, i: nat)
    requires 1 <= i < |s| && !IsDigit(s[i])
    ensures Atoi(s) == None
    ensures Atoi("") == None && Atoi("-") == None && Atoi("+") == None
  {
    assert Unsigned("-") == [] && Unsigned("+") == [];
    var u := Unsigned(s);
    if s[0] == '-' || s[0] == '+' {
      assert u[i - 1] == s[i];
    } else {
      assert u[i] == s[i];
    }
  }

  lemma {:induction false} DigitsValueOfDigits(n: nat)
    ensures AllDigits(Digits(n)) && DigitsValue(Digits(n)) == n
    decreases n
  {
    DigitsShape(n);
    if n >= 10 {
      TensBounds(n);
      DigitsShape(Tens(n));
      var d := Digits(Tens(n));
      DigitsValueOfDigits(Tens(n));
      assert (d + [DigitChar(n - 10 * Tens(n))])[..|d|] == d;
    }
  }

  /** Atoi of an unsigned run of digits is its value, when in range. */
  lemma AtoiOfUnsigned(d: string)
    requires |d| >= 1 && AllDigits(d) && DigitsValue(d) <= MaxInt64
    ensures Atoi(d) == Some(DigitsValue(d))
  {
    assert IsDigit(d[0]);
  }

  /** Atoi of a '-' and a run of digits is minus its value, when in range. */
  lemma AtoiOfNegative(d: string)
    requires |d| >= 1 && AllDigits(d) && DigitsValue(d) <= -MinInt64
    ensures Atoi("-" + d) == Some(0 - DigitsValue(d) as int)
  {
    var t := "-" + d;
    assert t[0] == '-' && t[1..] == d;
  }

  /** The text of a negative number is a '-' and the digits of its
      magnitude; that of any other number is its digits. */
  lemma ItoaSplit(n: int)
    ensures n < 0 ==> Itoa(n) == "-" + Digits(-n)
    ensures n >= 0 ==> Itoa(n) == Digits(n)
  {
  }

  lemma AtoiOfMinus(n: int)
    requires MinInt64 <= n < 0
    ensures Atoi("-" + Digits(-n)) == Some(n)
  {
    var d := Digits(-n);
    DigitsShape(-n);
    DigitsValueOfDigits(-n);
    assert DigitsValue(d) == -n;
    AtoiOfNegative(d);
  }

  lemma AtoiOfPlain(n: int)
    requires 0 <= n <= MaxInt64
    ensures Atoi(Digits(n)) == Some(n)
  {
    DigitsShape(n);
    DigitsValueOfDigits(n);
    AtoiOfUnsigned(Digits(n));
  }

  /** Atoi reads back what Itoa writes, for every int64 value. */
  lemma AtoiOfItoa(n: int)
    requires MinInt64 <= n <= MaxInt64
    ensures Atoi(Itoa(n)) == Some(n)
  {
    ItoaSplit(n);
    if n < 0 {
      AtoiOfMinus(n);
    } else {
      AtoiOfPlain(n);
    }
  }
}
