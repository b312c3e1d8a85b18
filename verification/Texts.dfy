/** The string operations the codecs are written in: searching, splitting, decimal digits. */
module Texts {
  import opened Numerals

  /** `text.indexOf(c)`: the first position of `c`, or -1. */
  function IndexOf(s: string, c: char): (at: int)
    ensures at == -1 ==> c !in s
    ensures at != -1 ==> 0 <= at < |s| && s[at] == c && c !in s[..at]
  {
    if s == [] then -1
    else if s[0] == c then 0
    else
      var rest := IndexOf(s[1..], c);
      assert rest != -1 ==> s[..rest + 1] == [s[0]] + s[1..][..rest];
      if rest == -1 then -1 else rest + 1
  }

  /** A separator that does not occur in the head is found right after it. */
  lemma IndexOfSeparator(head: string, c: char, tail: string)
    requires c !in head
    ensures IndexOf(head + [c] + tail, c) == |head|
  {
    var s := head + [c] + tail;
    assert s[..|head|] == head && s[|head|] == c;
    assert s[|head|] in s;
  }

  /** `text.split(c)`: always at least one segment. */
  function Split(s: string, c: char): (parts: seq<string>)
    ensures |parts| > 0
    decreases |s|
  {
    var at := IndexOf(s, c);
    if at == -1 then [s] else [s[..at]] + Split(s[at + 1..], c)
  }

  function Join(parts: seq<string>, c: char): string
    requires |parts| > 0
  {
    if |parts| == 1 then parts[0] else parts[0] + [c] + Join(parts[1..], c)
  }

  /** Splitting a join of separator-free segments gives the segments back. */
  lemma {:induction false} SplitJoin(parts: seq<string>, c: char)
    requires |parts| > 0
    requires forall i :: 0 <= i < |parts| ==> c !in parts[i]
    ensures Split(Join(parts, c), c) == parts
    decreases |parts|
  {
    var s := Join(parts, c);
    if |parts| == 1 {
      assert IndexOf(s, c) == -1;
    } else {
      var tail := Join(parts[1..], c);
      IndexOfSeparator(parts[0], c, tail);
      SplitJoin(parts[1..], c);
      assert s[..|parts[0]|] == parts[0] && s[|parts[0]| + 1..] == tail;
    }
  }

  // ---------------------------------------------------------------------------
  // Decimal digits
  // ---------------------------------------------------------------------------

  predicate IsDigit(c: char) { '0' <= c <= '9' }

  predicate AllDigits(s: string) { forall i :: 0 <= i < |s| ==> IsDigit(s[i]) }

  function DigitChar(d: int): (c: char)
    requires 0 <= d < 10
    ensures IsDigit(c) && c as int - '0' as int == d
  {
    (d + '0' as int) as char
  }

  function DigitValues(s: string): (r: seq<int>)
    ensures |r| == |s|
  {
    seq(|s|, i requires 0 <= i < |s| => s[i] as int - '0' as int)
  }

  /** The number a digit string denotes. */
  function DecimalValue(s: string): int { Value(DigitValues(s), 10) }

  /** `String(n)` for a non-negative integer. */
  function Decimal(n: nat): (s: string)
    ensures |s| >= 1 && AllDigits(s)
  {
    if n < 10 then [DigitChar(n)] else Decimal(n / 10) + [DigitChar(n % 10)]
  }

  /** `text.padStart(width, "0")`. */
  function PadStart(s: string, width: nat): string {
    if |s| >= width then s else seq(width - |s|, _ => '0') + s
  }

  lemma DecimalValueSnoc(s: string, c: char)
    ensures DecimalValue(s + [c]) == DecimalValue(s) * 10 + (c as int - '0' as int)
  {
    assert DigitValues(s + [c]) == DigitValues(s) + [c as int - '0' as int];
    ValueSnoc(DigitValues(s), c as int - '0' as int, 10);
  }

  lemma {:induction false} DecimalDenotes(n: nat)
    ensures DecimalValue(Decimal(n)) == n
  {
    if n < 10 {
      assert Decimal(n) == [] + [DigitChar(n)];
      DecimalValueSnoc([], DigitChar(n));
    } else {
      DecimalDenotes(n / 10);
      DecimalValueSnoc(Decimal(n / 10), DigitChar(n % 10));
    }
  }

  lemma {:induction false} DecimalLength(n: nat, width: nat)
    requires width >= 1 && n < Pow(10, width)
    ensures |Decimal(n)| <= width
    decreases width
  {
    if n >= 10 {
      assert width > 1 by { assert Pow(10, 1) == 10 * Pow(10, 0); }
      assert n / 10 < Pow(10, width - 1);
      DecimalLength(n / 10, width - 1);
    }
  }

  lemma {:induction false} LeadingZeros(zeros: nat, s: string)
    ensures DecimalValue(seq(zeros, _ => '0') + s) == DecimalValue(s)
    decreases |s|, zeros
  {
    var z := seq(zeros, _ => '0');
    if s != [] {
      var init, last := s[..|s| - 1], s[|s| - 1];
      LeadingZeros(zeros, init);
      assert z + s == (z + init) + [last] && s == init + [last];
      DecimalValueSnoc(z + init, last);
      DecimalValueSnoc(init, last);
    } else if zeros > 0 {
      var shorter := seq(zeros - 1, _ => '0');
      LeadingZeros(zeros - 1, []);
      assert z + s == (shorter + []) + ['0'];
      DecimalValueSnoc(shorter + [], '0');
    }
  }

  /** Zero-padding writes exactly `width` digits that denote the number. */
  lemma PaddedDecimal(n: nat, width: nat)
    requires width >= 1 && n < Pow(10, width)
    ensures var s := PadStart(Decimal(n), width);
            |s| == width && AllDigits(s) && DecimalValue(s) == n
  {
    DecimalLength(n, width);
    DecimalDenotes(n);
    LeadingZeros(width - |Decimal(n)|, Decimal(n));
    if |Decimal(n)| == width {
      assert seq(0, _ => '0') + Decimal(n) == Decimal(n);
    }
  }

  /** Digit strings of one length and one value are equal. */
  lemma SameDigits(s: string, t: string)
    requires AllDigits(s) && AllDigits(t) && |s| == |t|
    requires DecimalValue(s) == DecimalValue(t)
    ensures s == t
  {
    ValueInjective(DigitValues(s), DigitValues(t), 10);
    forall i | 0 <= i < |s| ensures s[i] == t[i] {
      assert DigitValues(s)[i] == DigitValues(t)[i];
    }
  }

  /** ... and every digit string of that width is written by exactly one number. */
  lemma PaddedDecimalOnto(s: string)
    requires |s| >= 1 && AllDigits(s)
    ensures 0 <= DecimalValue(s) < Pow(10, |s|)
    ensures PadStart(Decimal(DecimalValue(s)), |s|) == s
  {
    ValueBounds(DigitValues(s), 10);
    PaddedDecimal(DecimalValue(s), |s|);
    SameDigits(s, PadStart(Decimal(DecimalValue(s)), |s|));
  }
}
