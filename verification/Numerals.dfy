/**
  Positional numerals: a sequence of digits, most significant first, read in a
  base. Byte strings (base 256), base32 groups (base 32) and decimal codes
  (base 10) are all numerals, so the codecs and the one-time-code arithmetic
  share the few facts below.
 */
module Numerals {

  function Pow(base: nat, exponent: nat): (r: nat)
    ensures base > 0 ==> r > 0
  {
    if exponent == 0 then 1 else base * Pow(base, exponent - 1)
  }

  /** Every digit is a digit of the base. */
  predicate Digits(s: seq<int>, base: nat) {
    forall i :: 0 <= i < |s| ==> 0 <= s[i] < base
  }

  /** The number a digit sequence stands for, most significant digit first. */
  function Value(s: seq<int>, base: nat): int {
    if s == [] then 0 else Value(s[..|s| - 1], base) * base + s[|s| - 1]
  }

  /** The `width` low digits of `n`, most significant first. */
  function ToDigits(n: int, base: nat, width: nat): (r: seq<int>)
    requires base > 0
    ensures |r| == width && Digits(r, base)
    decreases width
  {
    if width == 0 then [] else ToDigits(n / base, base, width - 1) + [n % base]
  }

  lemma ValueSnoc(s: seq<int>, d: int, base: nat)
    ensures Value(s + [d], base) == Value(s, base) * base + d
  {
    assert (s + [d])[..|s|] == s;
  }

  /** Division by the base takes a numeral apart uniquely. */
  lemma DivisionUnique(a: int, x: int, b: int, y: int, base: int)
    requires 0 <= x < base && 0 <= y < base
    requires a * base + x == b * base + y
    ensures a == b && x == y
  {
    if a > b {
      assert (a - b) * base >= base by { MulAtLeast(a - b, base); }
    } else if b > a {
      assert (b - a) * base >= base by { MulAtLeast(b - a, base); }
    }
  }

  lemma MulAtLeast(k: int, base: int)
    requires k >= 1 && base >= 0
    ensures k * base >= base
  {
    assert k * base == (k - 1) * base + base;
    MulNonNegative(k - 1, base);
  }

  lemma MulNonNegative(a: int, b: int)
    requires a >= 0 && b >= 0
    ensures a * b >= 0
  {}

  /** A numeral of `width` digits lies in `[0, base^width)`. */
  lemma {:induction false} ValueBounds(s: seq<int>, base: nat)
    requires Digits(s, base)
    ensures 0 <= Value(s, base) < Pow(base, |s|)
  {
    if s != [] {
      var init, last := s[..|s| - 1], s[|s| - 1];
      ValueBounds(init, base);
      MulNonNegative(Value(init, base), base);
      MulNonNegative(Pow(base, |init|) - 1 - Value(init, base), base);
      assert (Pow(base, |init|) - 1 - Value(init, base)) * base
          == Pow(base, |init|) * base - base - Value(init, base) * base;
    }
  }

  /** Two numerals of one width with one value are one numeral. */
  lemma {:induction false} ValueInjective(s: seq<int>, t: seq<int>, base: nat)
    requires Digits(s, base) && Digits(t, base)
    requires |s| == |t| && Value(s, base) == Value(t, base)
    ensures s == t
  {
    if s != [] {
      var n := |s| - 1;
      DivisionUnique(Value(s[..n], base), s[n], Value(t[..n], base), t[n], base);
      ValueInjective(s[..n], t[..n], base);
      assert s == s[..n] + [s[n]] && t == t[..n] + [t[n]];
    }
  }

  /** Writing a number out and reading it back keeps it modulo `base^width`. */
  lemma {:induction false} ValueToDigits(n: int, base: nat, width: nat)
    requires base > 0
    ensures Value(ToDigits(n, base, width), base) == n % Pow(base, width)
    decreases width
  {
    if width > 0 {
      var quotient, low, p := n / base, n % base, Pow(base, width - 1);
      ValueToDigits(quotient, base, width - 1);
      ValueSnoc(ToDigits(quotient, base, width - 1), low, base);
      ModSplit(n, base, p);
      assert Pow(base, width) == base * p;
    } else {
      assert n % 1 == 0;
    }
  }

  lemma ModSplit(n: int, a: int, b: int)
    requires a > 0 && b > 0
    ensures a * b > 0 && n % (a * b) == (n / a) % b * a + n % a
  {
    var q, r := n / a / b, (n / a) % b * a + n % a;
    assert a * b > 0;
    assert n / a == q * b + (n / a) % b;
    assert n == n / a * a + n % a;
    assert n == (q * b + (n / a) % b) * a + n % a;
    assert n == q * (a * b) + r by { assert q * b * a == q * (a * b); assert (q * b + (n / a) % b) * a
                                    == q * b * a + (n / a) % b * a; }
    MulNonNegative((n / a) % b, a);
    MulNonNegative(b - 1 - (n / a) % b, a);
    assert (b - 1 - (n / a) % b) * a == b * a - a - (n / a) % b * a;
    assert 0 <= r < a * b;
    DivisionUnique(n / (a * b), n % (a * b), q, r, a * b);
  }

  lemma {:induction false} PowAdd(base: nat, a: nat, b: nat)
    ensures Pow(base, a + b) == Pow(base, a) * Pow(base, b)
    decreases a
  {
    if a > 0 {
      PowAdd(base, a - 1, b);
      assert base * (Pow(base, a - 1) * Pow(base, b)) == base * Pow(base, a - 1) * Pow(base, b);
    }
  }

  /** Reducing modulo a multiple first changes nothing. */
  lemma ModMod(n: int, a: int, b: int)
    requires a > 0 && b > 0
    ensures a * b > 0 && n % (a * b) % a == n % a
  {
    ModSplit(n, a, b);
    var q := (n / a) % b;
    DivisionUnique(n % (a * b) / a, n % (a * b) % a, q, n % a, a);
  }

  /** Shifting left and then reducing is reducing and then shifting. */
  lemma ShiftModulo(n: int, p: int, q: int)
    requires p > 0 && q > 0
    ensures p * q > 0 && n * p % (p * q) == n % q * p
  {
    ModSplit(n * p, p, q);
    DivisionUnique(n * p / p, n * p % p, n, 0, p);
  }

  lemma ShiftBound(v: nat, bound: nat, p: nat)
    requires v < bound && p > 0
    ensures 0 <= v * p < bound * p
  {
    MulNonNegative(v, p);
    MulAtLeast(bound - v, p);
    assert (bound - v) * p == bound * p - v * p;
  }

  lemma ModSmall(n: int, m: int)
    requires 0 <= n < m
    ensures n % m == n
  {}

  lemma QuotientMonotone(m: int, n: int, p: int)
    requires p > 0 && m <= n
    ensures m / p <= n / p
  {
    var gap := n / p - m / p;
    assert (gap + 1) * p == n / p * p - m / p * p + p;
    assert n / p * p == n - n % p && m / p * p == m - m % p;
    if gap < 0 {
      MulNonNegative(-(gap + 1), p);
    }
  }
}
