/**
  Numeric codes by rejection sampling: four random octets a draw, a draw at or
  above the largest multiple of `10^digits` discarded, the rest reduced.

  The randomness is the sequence of draws handed in.
 */
module Token {
  import opened Prelude
  import opened Numerals
  import opened Texts

  const MAX_CODE_DIGITS := 9

  type Draw = x: seq<byte> | |x| == 4 witness [0, 0, 0, 0]

  /** What minting comes to: a programming error, a draw still owed, or a code. */
  datatype Minted = Defect | Undecided | Code(code: string)

  predicate ValidDigits(digits: int) { 1 <= digits <= MAX_CODE_DIGITS }

  /** Big-endian, by arithmetic. */
  function DrawValue(x: Draw): nat {
    var a: int, b: int, c: int, d: int := x[0], x[1], x[2], x[3];
    a * 0x100_0000 + b * 0x1_0000 + c * 0x100 + d
  }

  function Limit(digits: nat): nat {
    0x1_0000_0000 / Pow(10, digits) * Pow(10, digits)
  }

  function CodeOf(x: Draw, digits: nat): string {
    PadStart(Decimal(DrawValue(x) % Pow(10, digits)), digits)
  }

  /** Redraws until a draw is below the limit. */
  function Sample(digits: nat, draws: seq<Draw>): Minted {
    if draws == [] then Undecided
    else if DrawValue(draws[0]) >= Limit(digits) then Sample(digits, draws[1..])
    else Code(CodeOf(draws[0], digits))
  }

  function GenerateNumericCode(digits: int, draws: seq<Draw>): Minted {
    if !ValidDigits(digits) then Defect else Sample(digits, draws)
  }

  /** The first draw below the limit decides, and it is its code that is minted. */
  lemma {:induction false} MintedByFirstAccepted(digits: nat, draws: seq<Draw>, i: nat)
    requires ValidDigits(digits) && i < |draws|
    requires forall j :: 0 <= j < i ==> DrawValue(draws[j]) >= Limit(digits)
    requires DrawValue(draws[i]) < Limit(digits)
    ensures GenerateNumericCode(digits, draws) == Code(CodeOf(draws[i], digits))
    decreases i
  {
    hide DrawValue, Limit, CodeOf;
    if i > 0 {
      MintedByFirstAccepted(digits, draws[1..], i - 1);
    }
  }

  // ---------------------------------------------------------------------------
  // Uniformity
  // ---------------------------------------------------------------------------

  /** The draws that mint `code` at once. */
  ghost function Preimages(digits: nat, code: string): set<Draw> {
    set v | v in Residues(Pow(10, digits), 0x1_0000_0000 / Pow(10, digits), DecimalValue(code)) :: DrawOf(v)
  }

  /** The numbers below `quotient * modulus` that leave `rest`. */
  ghost function Residues(modulus: nat, quotient: nat, rest: int): set<int>
    requires modulus > 0
  {
    set v | 0 <= v < quotient * modulus && v % modulus == rest
  }

  function DrawOf(v: int): Draw { ToDigits(v, 256, 4) }

  lemma FourOctets()
    ensures Pow(256, 4) == 0x1_0000_0000
  {
    assert Pow(256, 2) == 0x1_0000;
    PowAdd(256, 2, 2);
  }

  lemma DrawValueIs(x: Draw)
    ensures DrawValue(x) == Value(x, 256) < 0x1_0000_0000
  {
    FourOctets();
    ValueBounds(x, 256);
    ValueSnoc(x[..3], x[3], 256);
    ValueSnoc(x[..2], x[2], 256);
    ValueSnoc(x[..1], x[1], 256);
    ValueSnoc([], x[0], 256);
    assert x == x[..3] + [x[3]] && x[..3] == x[..2] + [x[2]] && x[..2] == x[..1] + [x[1]] && x[..1] == [] + [x[0]];
  }

  /** Draws and the numbers below 2^32 correspond one to one. */
  lemma DrawBijection(x: Draw, v: int)
    requires 0 <= v < 0x1_0000_0000
    ensures DrawValue(x) == v <==> x == DrawOf(v)
  {
    hide ToDigits, Value, Pow;
    FourOctets();
    DrawValueIs(x);
    DrawValueIs(DrawOf(v));
    ValueToDigits(v, 256, 4);
    if DrawValue(x) == v {
      ValueInjective(x, DrawOf(v), 256);
    }
  }

  lemma LimitBounds(digits: nat)
    requires ValidDigits(digits)
    ensures 0x8000_0000 < Limit(digits) <= 0x1_0000_0000
    ensures Pow(10, digits) <= 1_000_000_000
  {
    assert Pow(10, 1) == 10 && Pow(10, 2) == 100 && Pow(10, 3) == 1000;
    PowAdd(10, 3, 1);
    PowAdd(10, 3, 2);
    PowAdd(10, 3, 3);
    PowAdd(10, 6, 1);
    PowAdd(10, 6, 2);
    PowAdd(10, 6, 3);
  }

  /** Membership in `Preimages`, in the sampler's own terms. */
  lemma PreimagesAre(digits: nat, code: string, x: Draw)
    requires ValidDigits(digits) && |code| == digits && AllDigits(code)
    ensures x in Preimages(digits, code) <==> Sample(digits, [x]) == Code(code)
  {
    hide DecimalValue, Decimal, PadStart, DrawOf, Pow;
    var m, v := Pow(10, digits), DrawValue(x);
    LimitBounds(digits);
    DrawValueIs(x);
    DrawBijection(x, v);
    PaddedDecimal(v % m, digits);
    PaddedDecimalOnto(code);
    if CodeOf(x, digits) == code && v < Limit(digits) {
      assert v in Residues(m, 0x1_0000_0000 / m, DecimalValue(code));
    }
    if x in Preimages(digits, code) {
      var w :| w in Residues(m, 0x1_0000_0000 / m, DecimalValue(code)) && x == DrawOf(w);
      DrawBijection(x, w);
    }
  }

  lemma {:induction false} ResiduesCount(modulus: nat, quotient: nat, rest: int)
    requires 0 <= rest < modulus
    ensures |Residues(modulus, quotient, rest)| == quotient
    decreases quotient
  {
    if quotient == 0 {
      assert Residues(modulus, 0, rest) == {};
    } else {
      ResiduesCount(modulus, quotient - 1, rest);
      ResiduesGrow(modulus, quotient - 1, rest);
    }
  }

  lemma ResiduesGrow(modulus: nat, quotient: nat, rest: int)
    requires 0 <= rest < modulus
    ensures var top := quotient * modulus + rest;
            top !in Residues(modulus, quotient, rest)
            && Residues(modulus, quotient + 1, rest) == Residues(modulus, quotient, rest) + {top}
  {
    var top := quotient * modulus + rest;
    assert (quotient + 1) * modulus == quotient * modulus + modulus;
    DivisionUnique(top / modulus, top % modulus, quotient, rest, modulus);
    MulNonNegative(quotient, modulus);
    forall v | v in Residues(modulus, quotient + 1, rest) ensures v in Residues(modulus, quotient, rest) || v == top {
      if v >= quotient * modulus {
        var d := v - quotient * modulus;
        DivisionUnique(v / modulus, v % modulus, quotient, d, modulus);
      }
    }
  }

  lemma {:induction false} ImageCount(s: set<int>, t: set<Draw>)
    requires forall v :: v in s ==> 0 <= v < 0x1_0000_0000
    requires t == set v | v in s :: DrawOf(v)
    ensures |t| == |s|
    decreases s
  {
    if v: int :| v in s {
      var rest := set w | w in s - {v} :: DrawOf(w);
      forall w | w in s - {v} ensures DrawOf(w) != DrawOf(v) {
        DrawBijection(DrawOf(v), v);
        DrawBijection(DrawOf(v), w);
      }
      ImageCount(s - {v}, rest);
      assert t == rest + {DrawOf(v)};
    } else {
      assert s == {} && t == {};
    }
  }

  /** Every code of the width has equally many draws: no code is likelier than another. */
  lemma Uniform(digits: nat, code: string)
    requires ValidDigits(digits) && |code| == digits && AllDigits(code)
    ensures |Preimages(digits, code)| == 0x1_0000_0000 / Pow(10, digits)
    ensures Limit(digits) == |Preimages(digits, code)| * Pow(10, digits)
    ensures Limit(digits) > 0x8000_0000
  {
    var m := Pow(10, digits);
    LimitBounds(digits);
    PaddedDecimalOnto(code);
    ResiduesCount(m, 0x1_0000_0000 / m, DecimalValue(code));
    ImageCount(Residues(m, 0x1_0000_0000 / m, DecimalValue(code)), Preimages(digits, code));
  }

  /** Every accepted draw mints a code of exactly the digits asked for. */
  lemma MintedShape(digits: int, draws: seq<Draw>)
    ensures match GenerateNumericCode(digits, draws)
            case Defect => !(1 <= digits <= 9)
            case Undecided =>
              1 <= digits <= 9 && forall i :: 0 <= i < |draws| ==> DrawValue(draws[i]) >= Limit(digits)
            case Code(code) => 1 <= digits <= 9 && |code| == digits && AllDigits(code)
    decreases |draws|
  {
    hide DrawValue, Limit, Pow, Decimal, PadStart;
    if ValidDigits(digits) && draws != [] {
      PaddedDecimal(DrawValue(draws[0]) % Pow(10, digits), digits);
      MintedShape(digits, draws[1..]);
    }
  }
}
