/**
  RFC 4648 base32, as `internal/base32` writes and reads it.

  The reference is numeric: a base32 text spells a byte string when, read as one
  base-32 numeral, it is the byte string's base-256 numeral shifted left by the
  fewer than five fill bits. The two loops are proved against that reading.
 */
module Base32 {
  import opened Prelude
  import opened Numerals
  import opened Bitwise

  const ALPHABET := "ABCDEFGHIJKLMNOPQRSTUVWXYZ234567"

  /** The 5-bit value of an upper- or lower-case letter of the alphabet, or -1. */
  function ValueOf(c: char): (v: int)
    ensures -1 <= v < 32
  {
    if 'A' <= c <= 'Z' then (c - 'A') as int
    else if 'a' <= c <= 'z' then (c - 'a') as int
    else if '2' <= c <= '7' then (c - '2') as int + 26
    else -1
  }

  /** The first sixteen signs of the alphabet, and the other sixteen. */
  lemma LowerHalf(v: int)
    requires 0 <= v < 16
    ensures ALPHABET[v] == 'A' + v as char
  {}

  lemma UpperHalf(v: int)
    requires 16 <= v < 32
    ensures ALPHABET[v] == if v < 26 then 'A' + v as char else '2' + (v - 26) as char
  {}

  lemma AlphabetValues(v: int)
    requires 0 <= v < 32
    ensures ValueOf(ALPHABET[v]) == v && Upper(ALPHABET[v]) == ALPHABET[v]
  {
    assert |ALPHABET| == 32;
    hide ALPHABET;
    if v < 16 {
      LowerHalf(v);
    } else {
      UpperHalf(v);
    }
  }

  function Quintets(s: string): (r: seq<int>)
    ensures |r| == |s|
  {
    seq(|s|, i requires 0 <= i < |s| => ValueOf(s[i]))
  }

  predicate InAlphabet(s: string) { forall i :: 0 <= i < |s| ==> ValueOf(s[i]) >= 0 }

  function Upper(c: char): char {
    if 'a' <= c <= 'z' then (c as int - 'a' as int + 'A' as int) as char else c
  }

  function UpperCase(s: string): (r: string)
    ensures |r| == |s|
  {
    seq(|s|, i requires 0 <= i < |s| => Upper(s[i]))
  }

  /** `s` without its trailing `=`. */
  function Unpadded(s: string): string {
    if s != [] && s[|s| - 1] == '=' then Unpadded(s[..|s| - 1]) else s
  }

  /** The one spelling a text is judged by: unpadded and upper-case. */
  function Canonical(text: string): string { UpperCase(Unpadded(text)) }

  /** The RFC's bit regrouping, as one equation between numerals. */
  ghost predicate Spells(s: string, b: seq<byte>) {
    var fill := 5 * |s| - 8 * |b|;
    0 <= fill < 5 && InAlphabet(s) && Value(Quintets(s), 32) == Value(b, 256) * Pow(2, fill)
  }

  // ---------------------------------------------------------------------------
  // The reference encoding
  // ---------------------------------------------------------------------------

  function Letters(digits: seq<int>): (s: string)
    requires Digits(digits, 32)
    ensures |s| == |digits|
  {
    seq(|digits|, i requires 0 <= i < |digits| => ALPHABET[digits[i]])
  }

  /** How many letters `bytes` bytes take: a whole number of groups and one partial group. */
  function Width(bytes: nat): (width: nat)
    ensures 0 <= 5 * width - 8 * bytes < 5
  {
    (8 * bytes + 4) / 5
  }

  function Encoded(b: seq<byte>): (s: string)
    ensures |s| == Width(|b|)
  {
    Letters(ToDigits(Value(b, 256) * Pow(2, 5 * Width(|b|) - 8 * |b|), 32, Width(|b|)))
  }

  lemma QuintetsOfLetters(digits: seq<int>)
    requires Digits(digits, 32)
    ensures Quintets(Letters(digits)) == digits && UpperCase(Letters(digits)) == Letters(digits)
    ensures InAlphabet(Letters(digits))
  {
    forall i | 0 <= i < |digits|
      ensures ValueOf(Letters(digits)[i]) == digits[i] && Upper(Letters(digits)[i]) == Letters(digits)[i]
    {
      AlphabetValues(digits[i]);
    }
  }

  lemma PowersAgree(n: nat)
    ensures Pow(256, n) == Pow(2, 8 * n) && Pow(32, n) == Pow(2, 5 * n)
  {
    if n > 0 {
      PowersAgree(n - 1);
      PowAdd(2, 8, 8 * (n - 1));
      PowAdd(2, 5, 5 * (n - 1));
      SmallPowers();
    }
  }

  lemma SmallPowers()
    ensures Pow(2, 0) == 1 && Pow(2, 1) == 2 && Pow(2, 2) == 4 && Pow(2, 3) == 8 && Pow(2, 4) == 16
    ensures Pow(2, 5) == 32 && Pow(2, 8) == 256
  {
    assert Pow(2, 5) == 32 && Pow(2, 6) == 64 && Pow(2, 7) == 128;
  }

  lemma DigitsOfBytes(b: seq<byte>)
    ensures Digits(b, 256)
  {}

  lemma EncodedValue(b: seq<byte>, width: nat, fill: nat)
    requires 5 * width == 8 * |b| + fill
    ensures Value(ToDigits(Value(b, 256) * Pow(2, fill), 32, width), 32) == Value(b, 256) * Pow(2, fill)
  {
    var v, p := Value(b, 256), Pow(2, fill);
    ValueToDigits(v * p, 32, width);
    DigitsOfBytes(b);
    ValueBounds(b, 256);
    PowersAgree(|b|);
    PowersAgree(width);
    PowAdd(2, 8 * |b|, fill);
    ShiftBound(v, Pow(256, |b|), p);
    ModSmall(v * p, Pow(32, width));
  }

  /** Letters are upper-case and end in no `=`. */
  lemma LettersAreCanonical(digits: seq<int>)
    requires Digits(digits, 32)
    ensures UpperCase(Letters(digits)) == Letters(digits) && Canonical(Letters(digits)) == Letters(digits)
  {
    hide Quintets, UpperCase, Letters;
    var s := Letters(digits);
    QuintetsOfLetters(digits);
    if s != [] {
      assert ValueOf(s[|s| - 1]) >= 0;
    }
  }

  lemma EncodedSpells(b: seq<byte>)
    ensures Spells(Encoded(b), b)
    ensures UpperCase(Encoded(b)) == Encoded(b) && Canonical(Encoded(b)) == Encoded(b)
  {
    hide Value, Pow, ToDigits, Quintets, Letters, InAlphabet, UpperCase, Canonical;
    var width := Width(|b|);
    var fill := 5 * width - 8 * |b|;
    EncodedValue(b, width, fill);
    var digits := ToDigits(Value(b, 256) * Pow(2, fill), 32, width);
    QuintetsOfLetters(digits);
    LettersAreCanonical(digits);
  }

  lemma OneByteString(s: string, b: seq<byte>, c: seq<byte>)
    requires Spells(s, b) && Spells(s, c)
    ensures b == c
  {
    hide Value, Pow, Quintets, InAlphabet;
    assert |b| == |c|;
    DivisionUnique(Value(b, 256), 0, Value(c, 256), 0, Pow(2, 5 * |s| - 8 * |b|));
    DigitsOfBytes(b);
    DigitsOfBytes(c);
    ValueInjective(b, c, 256);
  }

  lemma QuintetAt(s: string, i: nat)
    requires i < |s|
    ensures Quintets(s)[i] == ValueOf(s[i]) && UpperCase(s)[i] == Upper(s[i])
  {}

  lemma QuintetsAreDigits(s: string)
    requires InAlphabet(s)
    ensures Digits(Quintets(s), 32)
  {}

  lemma OneUpperSpelling(s: string, t: string, b: seq<byte>)
    requires Spells(s, b) && Spells(t, b)
    requires UpperCase(s) == s && UpperCase(t) == t
    ensures s == t
  {
    hide Value, Pow, Quintets, InAlphabet, UpperCase;
    assert |s| == |t|;
    QuintetsAreDigits(s);
    QuintetsAreDigits(t);
    ValueInjective(Quintets(s), Quintets(t), 32);
    forall i | 0 <= i < |s| ensures s[i] == t[i] {
      QuintetAt(s, i);
      QuintetAt(t, i);
    }
  }

  /** One byte string has one upper-case spelling, and one spelling names one byte string. */
  lemma SpellingUnique(s: string, t: string, b: seq<byte>, c: seq<byte>)
    requires Spells(s, b) && Spells(t, c)
    ensures s == t ==> b == c
    ensures b == c && UpperCase(s) == s && UpperCase(t) == t ==> s == t
  {
    hide Spells;
    if s == t {
      OneByteString(s, b, c);
    }
    if b == c && UpperCase(s) == s && UpperCase(t) == t {
      OneUpperSpelling(s, t, b);
    }
  }

  /** A canonical text spells a byte string exactly when it is that string's encoding. */
  lemma SpellsIffEncoded(text: string, b: seq<byte>)
    ensures Spells(Canonical(text), b) <==> Canonical(text) == Encoded(b)
  {
    EncodedSpells(b);
    if Spells(Canonical(text), b) {
      var s := Canonical(text);
      assert UpperCase(s) == s;
      SpellingUnique(s, Encoded(b), b, b);
    }
  }

  /** Of all byte strings, the encoding of `b` is accepted for `b` and for no other. */
  lemma RoundTrip(b: seq<byte>, c: seq<byte>)
    ensures Canonical(Encoded(b)) == Encoded(c) <==> b == c
  {
    EncodedSpells(b);
    EncodedSpells(c);
    if Canonical(Encoded(b)) == Encoded(c) {
      SpellingUnique(Encoded(b), Encoded(c), b, c);
    }
  }

  // ---------------------------------------------------------------------------
  // The bit buffer
  // ---------------------------------------------------------------------------

  /** Pushing `k` bits keeps the pending bits, and appends the new ones below them. */
  lemma Push(buffer: nat, x: nat, k: nat, bits: nat)
    requires bits + k <= 32 && x < Pow(2, k)
    ensures Or(ShiftLeft(buffer, k), x) % Pow(2, bits + k) == buffer % Pow(2, bits) * Pow(2, k) + x
  {
    ShiftWraps(buffer, k);
    OrDisjoint(buffer % Pow(2, 32 - k), x, k);
    PowAdd(2, k, bits);
    PowAdd(2, bits, 32 - k - bits);
    PushArithmetic(buffer, x, Pow(2, k), Pow(2, bits), Pow(2, 32 - k - bits));
  }

  lemma PushArithmetic(buffer: nat, x: nat, p: nat, q: nat, rest: nat)
    requires p > 0 && q > 0 && rest > 0 && x < p
    ensures p * q > 0 && q * rest > 0 && (buffer % (q * rest) * p + x) % (p * q) == buffer % q * p + x
  {
    ModMod(buffer, q, rest);
    var kept := buffer % (q * rest);
    ModSplit(kept * p + x, p, q);
    DivisionUnique((kept * p + x) / p, (kept * p + x) % p, kept, x, p);
  }

  /** Taking the top `k` of the pending bits leaves the rest pending. */
  lemma Take(buffer: nat, bits: nat, k: nat)
    ensures And(ShiftRight(buffer, bits), Pow(2, k) - 1) < Pow(2, k)
    ensures buffer % Pow(2, bits + k)
            == And(ShiftRight(buffer, bits), Pow(2, k) - 1) * Pow(2, bits) + buffer % Pow(2, bits)
  {
    PowAdd(2, bits, k);
    ModSplit(buffer, Pow(2, bits), Pow(2, k));
    AndMask(ShiftRight(buffer, bits), k);
  }

  /**
    What both loops keep: the numeral written so far, followed by the low `bits`
    bits of the buffer, is the numeral read so far.
   */
  ghost predicate Pending(written: int, buffer: nat, bits: nat, read: int) {
    written * Pow(2, bits) + buffer % Pow(2, bits) == read
  }

  lemma PushStep(written: int, buffer: nat, bits: nat, read: int, x: nat, k: nat)
    requires Pending(written, buffer, bits, read) && bits + k <= 32 && x < Pow(2, k)
    ensures Pending(written, Or(ShiftLeft(buffer, k), x), bits + k, read * Pow(2, k) + x)
  {
    Push(buffer, x, k, bits);
    PowAdd(2, bits, k);
    Distribute(written, Pow(2, bits), buffer % Pow(2, bits), Pow(2, k));
  }

  lemma TakeStep(written: int, buffer: nat, bits: nat, read: int, k: nat)
    requires Pending(written, buffer, bits + k, read)
    ensures var taken := And(ShiftRight(buffer, bits), Pow(2, k) - 1);
            taken < Pow(2, k) && Pending(written * Pow(2, k) + taken, buffer, bits, read)
  {
    Take(buffer, bits, k);
    PowAdd(2, bits, k);
    var taken := And(ShiftRight(buffer, bits), Pow(2, k) - 1);
    Distribute(written, Pow(2, k), taken, Pow(2, bits));
    assert Pow(2, k) * Pow(2, bits) == Pow(2, bits) * Pow(2, k);
  }

  lemma Distribute(a: int, b: int, c: int, d: int)
    ensures (a * b + c) * d == a * (b * d) + c * d
  {}

  /** The trailing partial group: the pending bits, left-aligned and zero-filled. */
  lemma FillStep(written: int, buffer: nat, bits: nat, read: int)
    requires Pending(written, buffer, bits, read) && 0 < bits < 5
    ensures And(ShiftLeft(buffer, 5 - bits), 31) < 32
    ensures written * 32 + And(ShiftLeft(buffer, 5 - bits), 31) == read * Pow(2, 5 - bits)
  {
    var p, q := Pow(2, 5 - bits), Pow(2, bits);
    SmallPowers();
    PowAdd(2, 5 - bits, bits);
    AndMask(ShiftLeft(buffer, 5 - bits), 5);
    ModMod(buffer * p, 32, 0x800_0000);
    ShiftModulo(buffer, p, q);
    ShiftBound(buffer % q, q, p);
    Distribute(written, q, buffer % q, p);
    assert q * p == p * q;
  }

  lemma NothingPending(written: int, buffer: nat, read: int)
    requires Pending(written, buffer, 0, read)
    ensures written == read && Pow(2, 0) == 1
  {
    assert buffer % 1 == 0;
  }

  lemma QuintetsSnoc(s: string, v: int)
    requires 0 <= v < 32 && UpperLetters(s)
    ensures UpperLetters(s + [ALPHABET[v]])
    ensures Value(Quintets(s + [ALPHABET[v]]), 32) == Value(Quintets(s), 32) * 32 + v
  {
    AlphabetValues(v);
    assert Quintets(s + [ALPHABET[v]]) == Quintets(s) + [v];
    ValueSnoc(Quintets(s), v, 32);
  }

  // ---------------------------------------------------------------------------
  // The two loops
  // ---------------------------------------------------------------------------

  predicate UpperLetters(s: string) {
    forall i :: 0 <= i < |s| ==> ValueOf(s[i]) >= 0 && Upper(s[i]) == s[i]
  }

  /** The letters written and the bits pending, after the bytes of `read`. */
  ghost predicate Spelling(out: string, buffer: nat, bits: nat, read: seq<byte>) {
    && UpperLetters(out) && 5 * |out| + bits == 8 * |read|
    && Pending(Value(Quintets(out), 32), buffer, bits, Value(read, 256))
  }

  lemma SpellNothing()
    ensures Spelling([], 0, 0, [])
  {
    hide Pending, Pow, Value, Quintets, UpperLetters;
    EmptyBuffer();
    NothingRead();
  }

  lemma SpellByte(out: string, buffer: nat, bits: nat, bytes: seq<byte>, i: nat)
    requires i < |bytes| && bits < 5 && Spelling(out, buffer, bits, bytes[..i])
    ensures Spelling(out, Or(ShiftLeft(buffer, 8), bytes[i]), bits + 8, bytes[..i + 1])
  {
    hide Pending, Pow, Or, ShiftLeft, Value, Quintets, UpperLetters;
    SmallPowers();
    PushStep(Value(Quintets(out), 32), buffer, bits, Value(bytes[..i], 256), bytes[i], 8);
    BytesPrefix(bytes, i);
  }

  lemma SpellGroup(out: string, buffer: nat, bits: nat, read: seq<byte>)
    requires Spelling(out, buffer, bits + 5, read)
    ensures var group := And(ShiftRight(buffer, bits), 0x1f);
            group < 32 && Spelling(out + [ALPHABET[group]], buffer, bits, read)
  {
    hide Pending, Pow, And, ShiftRight, Value, Quintets, UpperLetters;
    SmallPowers();
    TakeStep(Value(Quintets(out), 32), buffer, bits, Value(read, 256), 5);
    QuintetsSnoc(out, And(ShiftRight(buffer, bits), 0x1f));
  }

  /** The last group, short of five bits, and the numeral it completes. */
  lemma SpellRest(out: string, buffer: nat, bits: nat, read: seq<byte>)
    requires Spelling(out, buffer, bits, read) && 0 < bits < 5
    ensures var group := And(ShiftLeft(buffer, 5 - bits), 0x1f);
            group < 32 && out + [ALPHABET[group]] == Encoded(read)
  {
    hide Pending, Pow, And, ShiftLeft, Value, Quintets, UpperLetters, Encoded;
    FillStep(Value(Quintets(out), 32), buffer, bits, Value(read, 256));
    var group := And(ShiftLeft(buffer, 5 - bits), 0x1f);
    QuintetsSnoc(out, group);
    SpellingIsEncoding(out + [ALPHABET[group]], read);
  }

  lemma SpellWhole(out: string, buffer: nat, read: seq<byte>)
    requires Spelling(out, buffer, 0, read)
    ensures out == Encoded(read)
  {
    hide Pow, Value, Quintets, UpperLetters, Encoded;
    NothingPending(Value(Quintets(out), 32), buffer, Value(read, 256));
    SpellingIsEncoding(out, read);
  }

  method Encode(bytes: seq<byte>) returns (out: string)
    ensures out == Encoded(bytes)
  {
    hide Spelling, And, Or, ShiftLeft, ShiftRight, Encoded;
    out := "";
    var bits, buffer: nat := 0, 0;
    assert bytes[..0] == [];
    SpellNothing();
    for i := 0 to |bytes|
      invariant bits < 5 && Spelling(out, buffer, bits, bytes[..i])
    {
      SpellByte(out, buffer, bits, bytes, i);
      buffer := Or(ShiftLeft(buffer, 8), bytes[i]);
      bits := bits + 8;
      while bits >= 5
        invariant Spelling(out, buffer, bits, bytes[..i + 1])
      {
        bits := bits - 5;
        SpellGroup(out, buffer, bits, bytes[..i + 1]);
        out := out + [ALPHABET[And(ShiftRight(buffer, bits), 0x1f)]];
      }
    }
    assert bytes[..|bytes|] == bytes;
    if bits > 0 {
      SpellRest(out, buffer, bits, bytes);
      out := out + [ALPHABET[And(ShiftLeft(buffer, 5 - bits), 0x1f)]];
    } else {
      SpellWhole(out, buffer, bytes);
    }
  }

  lemma EmptyBuffer()
    ensures Pending(0, 0, 0, 0)
  {}

  lemma SpellingIsEncoding(s: string, b: seq<byte>)
    requires UpperLetters(s) && 0 <= 5 * |s| - 8 * |b| < 5
    requires Value(Quintets(s), 32) == Value(b, 256) * Pow(2, 5 * |s| - 8 * |b|)
    ensures s == Encoded(b)
  {
    assert UpperCase(s) == s;
    EncodedSpells(b);
    SpellingUnique(s, Encoded(b), b, b);
  }

  datatype DecodeError = InvalidLength | InvalidCharacter | NonCanonicalPadding

  /** Steps back over the trailing `=`. */
  method StripPadding(text: string) returns (body: string)
    ensures body == Unpadded(text)
  {
    var end := |text|;
    assert text[..end] == text;
    while end > 0 && text[end - 1] == '='
      invariant 0 <= end <= |text| && Unpadded(text[..end]) == Unpadded(text)
      decreases end
    {
      assert text[..end][..end - 1] == text[..end - 1];
      end := end - 1;
    }
    body := text[..end];
  }

  /** The decoding loop over the unpadded body, and the check of the fill bits it leaves. */
  method DecodeBody(body: string) returns (r: Result<seq<byte>, DecodeError>)
    requires |body| % 8 in {0, 2, 4, 5, 7}
    ensures r.Success? ==> InAlphabet(body) && DecodesTo(body, r.value, 0)
    ensures r == Failure(InvalidCharacter) <==> !InAlphabet(body)
    ensures r == Failure(NonCanonicalPadding) ==> exists out, rest :: rest > 0 && DecodesTo(body, out, rest)
    ensures r != Failure(InvalidLength)
  {
    hide Pending, Pow, And, Or, ShiftLeft, ShiftRight, Value, DecodesTo;
    SmallPowers();
    var out := new byte[|body| * 5 / 8](_ => 0);
    var at, bits, buffer: nat := 0, 0, 0;
    ghost var read, written := 0, 0;
    EmptyBuffer();
    assert body[..0] == [] && out[..0] == [];
    NothingRead();
    for index := 0 to |body|
      invariant 0 <= bits < 8 && 8 * at + bits == 5 * index && at <= out.Length
      invariant forall i :: 0 <= i < index ==> ValueOf(body[i]) >= 0
      invariant read == Value(Quintets(body[..index]), 32) && written == Value(out[..at], 256)
      invariant Pending(written, buffer, bits, read)
    {
      var value := ValueOf(body[index]);
      if value < 0 {
        return Failure(InvalidCharacter);
      }
      PushStep(written, buffer, bits, read, value, 5);
      QuintetsPrefix(body, index);
      read := read * 32 + value;
      buffer := Or(ShiftLeft(buffer, 5), value);
      bits := bits + 5;
      if bits >= 8 {
        bits := bits - 8;
        TakeStep(written, buffer, bits, read, 8);
        var octet := And(ShiftRight(buffer, bits), 0xff);
        ValueSnoc(out[..at], octet, 256);
        written := written * 256 + octet;
        out[at] := octet;
        assert out[..at + 1] == out[..at] + [octet];
        at := at + 1;
      }
    }
    assert body[..|body|] == body && out[..at] == out[..];
    AndMask(buffer, bits);
    Collected(body, out[..], buffer, bits);
    if bits > 0 && And(buffer, Pow(2, bits) - 1) != 0 {
      assert DecodesTo(body, out[..], buffer % Pow(2, bits));
      return Failure(NonCanonicalPadding);
    }
    if bits == 0 {
      NothingPending(written, buffer, read);
    }
    return Success(out[..]);
  }

  /** The body's numeral is the bytes', shifted over the fill bits, plus what is left in those. */
  ghost predicate DecodesTo(body: string, out: seq<byte>, rest: nat) {
    var fill := 5 * |body| - 8 * |out|;
    0 <= fill < 8 && rest < Pow(2, fill)
    && Value(Quintets(body), 32) == Value(out, 256) * Pow(2, fill) + rest
  }

  lemma Collected(body: string, out: seq<byte>, buffer: nat, bits: nat)
    requires 5 * |body| == 8 * |out| + bits && bits < 8
    requires Pending(Value(out, 256), buffer, bits, Value(Quintets(body), 32))
    ensures DecodesTo(body, out, buffer % Pow(2, bits))
    ensures bits == 0 ==> buffer % Pow(2, bits) == 0
  {
    assert buffer % 1 == 0;
  }

  method Decode(text: string) returns (r: Result<seq<byte>, DecodeError>)
    ensures r.Success? ==> Canonical(text) == Encoded(r.value)
    ensures r.Failure? ==> forall b: seq<byte> :: Canonical(text) != Encoded(b)
    ensures r == Failure(InvalidLength) <==> |Unpadded(text)| % 8 in {1, 3, 6}
    ensures r == Failure(InvalidCharacter) <==> |Unpadded(text)| % 8 !in {1, 3, 6} && !InAlphabet(Unpadded(text))
  {
    hide Encoded, Canonical, DecodesTo, InAlphabet;
    var body := StripPadding(text);
    if |body| % 8 !in {0, 2, 4, 5, 7} {
      WrongLength(text);
      return Failure(InvalidLength);
    }
    r := DecodeBody(body);
    match r {
      case Success(b) => RightPadding(text, b);
      case Failure(InvalidCharacter) => WrongCharacter(text);
      case Failure(NonCanonicalPadding) =>
        ghost var out, rest: nat :| rest > 0 && DecodesTo(body, out, rest);
        WrongPadding(text, out, rest);
      case Failure(InvalidLength) =>
    }
  }

  lemma NothingRead()
    ensures Value([], 256) == 0 && Value(Quintets([]), 32) == 0 && UpperLetters([])
  {}

  lemma BytesPrefix(b: seq<byte>, i: nat)
    requires i < |b|
    ensures Value(b[..i + 1], 256) == Value(b[..i], 256) * 256 + b[i]
  {
    assert b[..i + 1] == b[..i] + [b[i]];
    ValueSnoc(b[..i], b[i], 256);
  }

  lemma QuintetsPrefix(s: string, i: nat)
    requires i < |s|
    ensures Value(Quintets(s[..i + 1]), 32) == Value(Quintets(s[..i]), 32) * 32 + ValueOf(s[i])
  {
    assert Quintets(s[..i + 1]) == Quintets(s[..i]) + [ValueOf(s[i])];
    ValueSnoc(Quintets(s[..i]), ValueOf(s[i]), 32);
  }

  lemma CanonicalBody(text: string)
    ensures Quintets(Canonical(text)) == Quintets(Unpadded(text))
    ensures InAlphabet(Canonical(text)) == InAlphabet(Unpadded(text)) && |Canonical(text)| == |Unpadded(text)|
  {
    var s, u := Unpadded(text), Canonical(text);
    forall i | 0 <= i < |s| ensures ValueOf(u[i]) == ValueOf(s[i]) {
      assert u[i] == Upper(s[i]);
    }
  }

  lemma SpelledLength(s: string, b: seq<byte>)
    requires Spells(s, b)
    ensures 0 <= 5 * |s| - 8 * |b| < 5 && InAlphabet(s)
  {}

  lemma WrongLength(text: string)
    requires |Unpadded(text)| % 8 in {1, 3, 6}
    ensures forall b: seq<byte> :: Canonical(text) != Encoded(b)
  {
    hide Spells, Canonical, Encoded, InAlphabet;
    CanonicalBody(text);
    forall b: seq<byte> ensures Canonical(text) != Encoded(b) {
      SpellsIffEncoded(text, b);
      if Spells(Canonical(text), b) {
        SpelledLength(Canonical(text), b);
      }
    }
  }

  lemma WrongCharacter(text: string)
    requires !InAlphabet(Unpadded(text))
    ensures forall b: seq<byte> :: Canonical(text) != Encoded(b)
  {
    hide Spells, Canonical, Encoded;
    CanonicalBody(text);
    forall b: seq<byte> ensures Canonical(text) != Encoded(b) {
      SpellsIffEncoded(text, b);
      if Spells(Canonical(text), b) {
        SpelledLength(Canonical(text), b);
      }
    }
  }

  /** Non-zero fill bits: no byte string is spelt that way. */
  lemma WrongPadding(text: string, out: seq<byte>, rest: nat)
    requires rest > 0 && DecodesTo(Unpadded(text), out, rest)
    ensures forall b: seq<byte> :: Canonical(text) != Encoded(b)
  {
    hide Canonical, Encoded, Value, Pow;
    CanonicalBody(text);
    forall b: seq<byte> ensures Canonical(text) != Encoded(b) {
      SpellsIffEncoded(text, b);
      if Spells(Canonical(text), b) {
        assert |b| == |out|;
        DivisionUnique(Value(b, 256), 0, Value(out, 256), rest, Pow(2, 5 * |Unpadded(text)| - 8 * |out|));
      }
    }
  }

  lemma RightPadding(text: string, out: seq<byte>)
    requires |Unpadded(text)| % 8 in {0, 2, 4, 5, 7} && InAlphabet(Unpadded(text))
    requires DecodesTo(Unpadded(text), out, 0)
    ensures Canonical(text) == Encoded(out)
  {
    hide Canonical, Encoded, Value, Pow, Quintets, InAlphabet;
    CanonicalBody(text);
    SpellsIffEncoded(text, out);
  }
}
