/** The parts of Python's built-in `int` that the scalar types rely on: floor division and
    modulo, exponentiation (including the float path for negative exponents), `int(str)` on
    decimal literals and `str(int)`. */
module PyInt {
  import opened Results

  /** The binary arithmetic operators the scalar types forward to `int`. */
  datatype Op = Add | Sub | Mul | FloorDiv | Mod | Pow

  /** Python's `a // b`: the floor of the quotient (Dafny's `/` is Euclidean, which differs
      for a negative divisor). */
  function IntFloorDiv(a: int, b: int): (q: int)
    requires b != 0
    ensures b > 0 ==> b * q <= a < b * q + b
    ensures b < 0 ==> b * q + b < a <= b * q
  {
    if b > 0 then a / b else (-a) / (-b)
  }

  /** Python's `a % b`: the remainder takes the sign of the divisor. */
  function IntMod(a: int, b: int): (r: int)
    requires b != 0
    ensures a == b * IntFloorDiv(a, b) + r
    ensures b > 0 ==> 0 <= r < b
    ensures b < 0 ==> b < r <= 0
  {
    if b > 0 then a % b else -((-a) % (-b))
  }

  /** `b` raised to a natural exponent. */
  function Power(b: int, n: nat): (p: int)
    ensures b != 0 ==> p != 0
  {
    if n == 0 then 1 else b * Power(b, n - 1)
  }

  /** Division truncating toward zero, as `int(a / b)` does for an exact quotient. */
  function TruncDiv(a: int, b: int): int
    requires b != 0
  {
    var q := (if a < 0 then -a else a) / (if b < 0 then -b else b);
    if (a < 0) == (b < 0) then q else -q
  }

  lemma {:induction false} PowerOfOne(n: nat)
    ensures Power(1, n) == 1
  {
    if n > 0 { PowerOfOne(n - 1); }
  }

  lemma {:induction false} PowerOfMinusOne(n: nat)
    ensures Power(-1, n) == if n % 2 == 0 then 1 else -1
  {
    if n > 0 { PowerOfMinusOne(n - 1); }
  }

  /** A product of two ints of absolute value at least 2 has absolute value at least 2. */
  lemma ProductGrows(b: int, p: int)
    requires b <= -2 || 2 <= b
    requires p <= -2 || 2 <= p
    ensures b * p <= -2 || 2 <= b * p
  {
    if b >= 2 && p >= 2 {
      assert b * p >= 2 * p by { assert b * p == 2 * p + (b - 2) * p; }
    } else if b >= 2 {
      assert b * p <= 2 * p by { assert b * p == 2 * p + (b - 2) * p; }
    } else if p >= 2 {
      assert b * p <= -2 * p by { assert b * p == -2 * p + (b + 2) * p; }
    } else {
      assert b * p >= -2 * p by { assert b * p == -2 * p + (b + 2) * p; }
    }
  }

  lemma {:induction false} PowerGrows(b: int, n: nat)
    requires b <= -2 || 2 <= b
    requires n >= 1
    ensures Power(b, n) <= -2 || 2 <= Power(b, n)
  {
    if n > 1 {
      PowerGrows(b, n - 1);
      ProductGrows(b, Power(b, n - 1));
    }
  }

  /** The reciprocal of an int of absolute value at least 2 truncates to 0. */
  lemma TruncReciprocal(p: int)
    requires p <= -2 || 2 <= p
    ensures TruncDiv(1, p) == 0
  {
    var m := if p < 0 then -p else p;
    assert 1 / m == 0;
  }

  /** Python's `b ** e` on ints, followed by the `int(...)` the scalar constructors apply.
      A negative exponent makes Python compute `1 / b ** -e` in floating point, which is
      `ZeroDivisionError` for a zero base; `None` stands for that exception. */
  function PyPow(b: int, e: int): (r: Option<int>)
    ensures r.None? <==> (b == 0 && e < 0)
    ensures e >= 0 ==> r == Some(Power(b, e))
    ensures e < 0 && b != 0 ==> r == Some(TruncDiv(1, Power(b, -e)))
  {
    if e >= 0 then Some(Power(b, e))
    else if b == 0 then None
    else if b == 1 then
      PowerOfOne(-e);
      Some(1)
    else if b == -1 then
      PowerOfMinusOne(-e);
      Some(if (-e) % 2 == 0 then 1 else -1)
    else
      PowerGrows(b, -e);
      TruncReciprocal(Power(b, -e));
      Some(0)
  }

  /** One of Python's integer operators applied to two ints; `None` is `ZeroDivisionError`. */
  function Apply(op: Op, a: int, b: int): (r: Option<int>)
    ensures r.None? <==> ((op == FloorDiv || op == Mod) && b == 0) || (op == Pow && a == 0 && b < 0)
    ensures r.Some? && op == Add ==> r.value - b == a
    ensures r.Some? && op == Sub ==> r.value + b == a
  {
    match op
    case Add => Some(a + b)
    case Sub => Some(a - b)
    case Mul => Some(a * b)
    case FloorDiv => if b == 0 then None else Some(IntFloorDiv(a, b))
    case Mod => if b == 0 then None else Some(IntMod(a, b))
    case Pow => PyPow(a, b)
  }

  /** `divmod(a, b)` returns the pair (a // b, a % b) that rebuilds `a`. */
  lemma DivModRebuilds(a: int, b: int)
    requires b != 0
    ensures Apply(FloorDiv, a, b).Some? && Apply(Mod, a, b).Some?
    ensures b * Apply(FloorDiv, a, b).value + Apply(Mod, a, b).value == a
  {
  }

  // ----- decimal literals -----

  predicate IsDigit(c: char) { '0' <= c <= '9' }

  predicate AllDigits(s: string) { forall i :: 0 <= i < |s| ==> IsDigit(s[i]) }

  function DigitValue(c: char): nat
    requires IsDigit(c)
  {
    (c as int - '0' as int) as nat
  }

  function DigitChar(d: nat): (c: char)
    requires d < 10
    ensures IsDigit(c) && DigitValue(c) == d
  {
    ('0' as int + d) as char
  }

  /** The number a string of decimal digits denotes (leading zeros allowed, as `int()` allows). */
  function DigitsValue(s: string): nat
    requires AllDigits(s)
  {
    if |s| == 0 then 0 else 10 * DigitsValue(s[..|s| - 1]) + DigitValue(s[|s| - 1])
  }

  /** The decimal digits of a natural number, without leading zeros. */
  function NatToDecimal(n: nat): (s: string)
    ensures |s| >= 1 && AllDigits(s)
    ensures s[0] == '0' ==> n == 0
  {
    if n < 10 then [DigitChar(n)] else NatToDecimal(n / 10) + [DigitChar(n % 10)]
  }

  lemma {:induction false} DecimalRoundTrip(n: nat)
    ensures DigitsValue(NatToDecimal(n)) == n
  {
    if n >= 10 {
      var s := NatToDecimal(n);
      assert s[..|s| - 1] == NatToDecimal(n / 10);
      DecimalRoundTrip(n / 10);
    }
  }

  /** Python's `str(n)`. */
  function IntToDecimal(n: int): (s: string)
    ensures |s| >= 1
    ensures s[0] == '-' <==> n < 0
  {
    if n < 0 then "-" + NatToDecimal(-n) else NatToDecimal(n)
  }

  /** Python's `int(s)` on a string: an optional sign followed by ASCII digits.
      `None` is the `ValueError` Python raises for anything else. */
  function ParseInt(s: string): (r: Option<int>)
    ensures r.Some? <==>
      (|s| >= 1 && AllDigits(s)) || (|s| >= 2 && (s[0] == '+' || s[0] == '-') && AllDigits(s[1..]))
    ensures AllDigits(s) && |s| >= 1 ==> r == Some(DigitsValue(s) as int)
    ensures |s| >= 2 && s[0] == '+' && AllDigits(s[1..]) ==> r == Some(DigitsValue(s[1..]) as int)
    ensures |s| >= 2 && s[0] == '-' && AllDigits(s[1..]) ==> r == Some(-(DigitsValue(s[1..]) as int))
  {
    if |s| >= 2 && s[0] == '-' && AllDigits(s[1..]) then Some(-(DigitsValue(s[1..]) as int))
    else if |s| >= 2 && s[0] == '+' && AllDigits(s[1..]) then Some(DigitsValue(s[1..]) as int)
    else if |s| >= 1 && AllDigits(s) then Some(DigitsValue(s) as int)
    else None
  }

  /** A minus sign followed by digits parses to the negated value of the digits. */
  lemma ParseNegative(digits: string)
    requires |digits| >= 1 && AllDigits(digits)
    ensures ParseInt("-" + digits) == Some(-(DigitsValue(digits) as int))
  {
    var s := "-" + digits;
    assert s[1..] == digits;
  }

  /** A sign needs digits after it, and digits need nothing after them: "-", "+", "" and "5a"
      raise, while "+5", "-5" and "007" are 5, -5 and 7. */
  lemma ParseIntExamples()
    ensures ParseInt("-") == None && ParseInt("+") == None && ParseInt("") == None
    ensures ParseInt("5a") == None && ParseInt("--5") == None
    ensures ParseInt("+5") == Some(5) && ParseInt("-5") == Some(-5) && ParseInt("007") == Some(7)
  {
    assert "--5"[1..] == "-5" && !IsDigit("-5"[0]);
    assert "5a"[1..] == "a" && !IsDigit("5a"[1]);
    assert "+5"[1..] == "5" && "-5"[1..] == "5";
    assert DigitsValue("5") == 5 by { assert "5"[..0] == ""; }
    assert DigitsValue("007") == 7 by {
      assert "007"[..2] == "00" && "00"[..1] == "0" && "0"[..0] == "";
    }
  }

  /** `int(str(n)) == n`: the decimal display of an int parses back to it. */
  lemma ParseShowRoundTrip(n: int)
    ensures ParseInt(IntToDecimal(n)) == Some(n)
  {
    if n < 0 {
      DecimalRoundTrip(-n);
      ParseNegative(NatToDecimal(-n));
    } else {
      DecimalRoundTrip(n);
    }
  }
}
