/** The few JavaScript value semantics the countdown page relies on:
    `null`, the truncating `%` operator, `Math.floor(a / b)` and the text
    a template literal `${n}` produces for an integer. */
module JsSemantics {

  /** A value that may be `null`. */
  datatype Nullable<T> = Null | Value(value: T)

  /** The quotient of JavaScript's truncating integer division. */
  function TruncQuot(a: int, m: int): int
    requires m > 0
  {
    if a >= 0 then a / m else -((-a) / m)
  }

  /** JavaScript's `a % m` on integers: the remainder has the sign of the
      dividend (division truncates toward zero), unlike Dafny's `%`. */
  function Rem(a: int, m: int): (r: int)
    requires m > 0
    ensures -m < r < m
    ensures a >= 0 ==> 0 <= r
    ensures a <= 0 ==> r <= 0
    ensures a == m * TruncQuot(a, m) + r
  {
    if a >= 0 then a % m else -((-a) % m)
  }

  /** `Math.floor(a / m)` for integers and a positive divisor. */
  function FloorDiv(a: int, m: int): (q: int)
    requires m > 0
    ensures m * q <= a < m * q + m
  {
    a / m
  }

  /** Adding `m` to a negative JavaScript remainder gives the Euclidean one:
      the step that `normalizeAngle` relies on. */
  lemma {:induction false} RemShifted(a: int, m: int)
    requires m > 0
    ensures (if Rem(a, m) < 0 then Rem(a, m) + m else Rem(a, m)) == a % m
  {
    var r, q := Rem(a, m), TruncQuot(a, m);
    if r < 0 {
      assert a == m * (q - 1) + (r + m);
      EuclideanUnique(a, m, q - 1, r + m);
    } else {
      EuclideanUnique(a, m, q, r);
    }
  }

  /** The Euclidean remainder is the only value in [0, m) that differs from
      `a` by a multiple of `m`. */
  lemma EuclideanUnique(a: int, m: int, k: int, e: int)
    requires m > 0 && 0 <= e < m && a == m * k + e
    ensures e == a % m && k == a / m
  {
    var q := a / m;
    assert a == m * q + a % m;
    if k > q {
      MulAtLeast(m, k - q);
    } else if k < q {
      MulAtLeast(m, q - k);
    }
  }

  lemma MulAtLeast(m: int, k: int)
    requires m > 0 && k >= 1
    ensures m * k >= m
  {
  }

  /** The digit character for `d`. */
  function DigitChar(d: int): (c: char)
    requires 0 <= d < 10
    ensures '0' <= c <= '9' && c as int - '0' as int == d
  {
    ('0' as int + d) as char
  }

  /** The value of a digit character. */
  function DigitValue(c: char): (d: int)
    requires '0' <= c <= '9'
    ensures 0 <= d < 10 && DigitChar(d) == c
  {
    c as int - '0' as int
  }

  predicate IsDigits(s: string) {
    forall i :: 0 <= i < |s| ==> '0' <= s[i] <= '9'
  }

  /** The decimal text of a natural number, as `${n}` writes it for numbers
      below 1e21: no sign and no leading zero. */
  function NatText(n: nat): string
    decreases n
  {
    if n < 10 then [DigitChar(n)] else NatText(n / 10) + [DigitChar(n % 10)]
  }

  /** The text is a non-empty string of digits without a leading zero, one
      digit long exactly for numbers below ten. */
  lemma {:induction false} NatTextDigits(n: nat)
    ensures 1 <= |NatText(n)| && IsDigits(NatText(n))
    ensures |NatText(n)| > 1 ==> NatText(n)[0] != '0'
    ensures n < 10 <==> |NatText(n)| == 1
    decreases n
  {
    if n >= 10 {
      NatTextDigits(n / 10);
    }
  }

  /** The decimal text of an integer, as `${n}` writes it for magnitudes
      below 1e21. */
  function IntText(n: int): string {
    if n < 0 then "-" + NatText(-n) else NatText(n)
  }

  /** The text of an integer starts with a minus sign exactly when it is
      negative, and the digits after any sign read back as its magnitude. */
  lemma IntTextRoundTrip(n: int)
    ensures |IntText(n)| >= 1 && (IntText(n)[0] == '-' <==> n < 0)
    ensures n >= 0 ==> IsDigits(IntText(n)) && ParseNat(IntText(n)) == n
    ensures n < 0 ==> IsDigits(IntText(n)[1..]) && ParseNat(IntText(n)[1..]) == -n
  {
    if n < 0 {
      ParseNatText(-n);
      assert IntText(n)[1..] == NatText(-n);
    } else {
      ParseNatText(n);
      NatTextDigits(n);
    }
  }

  /** Reads a string of decimal digits back as a number. */
  function ParseNat(s: string): nat
    requires IsDigits(s)
  {
    if s == [] then 0 else ParseNat(s[..|s| - 1]) * 10 + DigitValue(s[|s| - 1])
  }

  /** Reading back the decimal text of `n` gives `n`. */
  lemma {:induction false} ParseNatText(n: nat)
    ensures IsDigits(NatText(n)) && ParseNat(NatText(n)) == n
    decreases n
  {
    NatTextDigits(n);
    var s := NatText(n);
    if n >= 10 {
      NatTextDigits(n / 10);
      ParseNatText(n / 10);
      assert s[..|s| - 1] == NatText(n / 10);
    }
  }
}
