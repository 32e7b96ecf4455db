/** The few JavaScript number operations the interpreter relies on, restricted to
    integers: `Math.floor(a / b)`, the `%` operator, `String(n)` and
    `parseInt(text, 10)`. */
module JsNum {

  function Abs(n: int): (m: int)
    ensures m >= 0 && (m == n || m == -n)
  {
    if n < 0 then -n else n
  }

  /** `Math.floor(a / b)` for integers: the largest q with q * b not above a
      (for a positive divisor), or not below it (for a negative one). Dafny's `/`
      is Euclidean, which differs from floor division when b < 0. */
  function FloorDiv(a: int, b: int): (q: int)
    requires b != 0
    ensures b > 0 ==> q * b <= a < q * b + b
    ensures b < 0 ==> q * b + b < a <= q * b
  {
    if b > 0 then a / b else (-a) / (-b)
  }

  /** The quotient of JavaScript's integer division before flooring: the
      magnitude quotient, negated when the signs differ (rounding toward zero). */
  function TruncDiv(a: int, b: int): int
    requires b != 0
  {
    var q := Abs(a) / Abs(b);
    if (a < 0) == (b < 0) then q else -q
  }

  /** JavaScript `%` on integers: the remainder of the division that rounds toward
      zero, so it takes the sign of the dividend. `a % 0` is NaN, which an integer
      cannot express; the model answers 0 there. */
  function TruncRem(a: int, b: int): (r: int)
    ensures b != 0 && a >= 0 ==> 0 <= r < Abs(b)
    ensures b != 0 && a < 0 ==> -Abs(b) < r <= 0
    ensures b != 0 ==> a == TruncDiv(a, b) * b + r
  {
    if b == 0 then 0
    else
      TruncDivTimesDivisor(a, b);
      if a >= 0 then Abs(a) % Abs(b) else -(Abs(a) % Abs(b))
  }

  /** The magnitude identity behind truncated division, signed by the dividend. */
  lemma TruncDivTimesDivisor(a: int, b: int)
    requires b != 0
    ensures var n, m := Abs(a), Abs(b);
      TruncDiv(a, b) * b + (if a < 0 then -(n % m) else n % m) == a
  {
    var n, m := Abs(a), Abs(b);
    var q := n / m;
    assert n == q * m + n % m;
    if b < 0 {
      assert b == -m;
      if a < 0 {
        calc {
          TruncDiv(a, b) * b;
          q * -m;
          -(q * m);
        }
      } else {
        calc {
          TruncDiv(a, b) * b;
          (-q) * -m;
          q * m;
        }
      }
    } else if a < 0 {
      assert TruncDiv(a, b) * b == (-q) * m == -(q * m);
    }
  }

  predicate IsDigit(c: char) {
    '0' <= c <= '9'
  }

  function DigitChar(d: int): (c: char)
    requires 0 <= d < 10
    ensures IsDigit(c) && DigitOf(c) == d
  {
    ['0', '1', '2', '3', '4', '5', '6', '7', '8', '9'][d]
  }

  function DigitOf(c: char): int {
    if IsDigit(c) then (c as int) - ('0' as int) else 0
  }

  /** The decimal digits of a natural number, most significant first, with no
      leading zero. */
  function NatToString(n: nat): (s: string)
    ensures |s| >= 1 && forall i :: 0 <= i < |s| ==> IsDigit(s[i])
    ensures |s| > 1 ==> s[0] != '0'
    decreases n
  {
    if n < 10 then [DigitChar(n)] else NatToString(n / 10) + [DigitChar(n % 10)]
  }

  /** `String(n)` for an integer n (before the exponent notation that JavaScript
      switches to at 1e21). */
  function IntToString(n: int): (s: string)
    ensures |s| >= 1
    ensures n >= 0 <==> IsDigit(s[0])
  {
    if n < 0 then "-" + NatToString(-n) else NatToString(n)
  }

  /** The value of a string of decimal digits, most significant first. */
  function DigitsValue(d: string): nat {
    if |d| == 0 then 0 else DigitsValue(d[..|d| - 1]) * 10 + DigitOf(d[|d| - 1])
  }

  /** The longest prefix made of decimal digits. */
  function LeadingDigits(text: string): (d: string)
    ensures |d| <= |text| && d == text[..|d|]
    ensures forall i :: 0 <= i < |d| ==> IsDigit(d[i])
    ensures |d| < |text| ==> !IsDigit(text[|d|])
  {
    if |text| > 0 && IsDigit(text[0]) then [text[0]] + LeadingDigits(text[1..]) else []
  }

  /** `parseInt(text, 10)` on a text that starts with a digit: the value of its
      leading digits, whatever follows them. */
  function ParseDecimal(text: string): nat {
    DigitsValue(LeadingDigits(text))
  }

  /** Printing a natural number and reading it back gives the number. */
  lemma {:induction false} DigitsValueOfNatToString(n: nat)
    ensures DigitsValue(NatToString(n)) == n
    decreases n
  {
    var s := NatToString(n);
    if n >= 10 {
      DigitsValueOfNatToString(n / 10);
      assert s[..|s| - 1] == NatToString(n / 10);
    }
  }

  /** A string of digits is read whole by `ParseDecimal`. */
  lemma LeadingDigitsOfDigits(s: string)
    requires forall i :: 0 <= i < |s| ==> IsDigit(s[i])
    ensures LeadingDigits(s) == s
    decreases |s|
  {
    if |s| > 0 {
      LeadingDigitsOfDigits(s[1..]);
    }
  }

  /** `parseInt(String(n), 10) == n` for every natural number. */
  lemma ParseDecimalOfIntToString(n: nat)
    ensures ParseDecimal(IntToString(n)) == n
  {
    LeadingDigitsOfDigits(NatToString(n));
    DigitsValueOfNatToString(n);
  }

  /** `parseInt` stops at the first non-digit: digits, then anything not starting
      with a digit, reads as the digits alone. */
  lemma ParseDecimalStopsAtNonDigit(digits: string, rest: string)
    requires forall i :: 0 <= i < |digits| ==> IsDigit(digits[i])
    requires |rest| > 0 ==> !IsDigit(rest[0])
    ensures ParseDecimal(digits + rest) == DigitsValue(digits)
  {
    LeadingDigitsOfPrefix(digits, rest);
  }

  lemma {:induction false} LeadingDigitsOfPrefix(digits: string, rest: string)
    requires forall i :: 0 <= i < |digits| ==> IsDigit(digits[i])
    requires |rest| > 0 ==> !IsDigit(rest[0])
    ensures LeadingDigits(digits + rest) == digits
    decreases |digits|
  {
    if |digits| > 0 {
      assert (digits + rest)[1..] == digits[1..] + rest;
      LeadingDigitsOfPrefix(digits[1..], rest);
      assert digits == [digits[0]] + digits[1..];
    } else {
      assert digits + rest == rest;
    }
  }
}
