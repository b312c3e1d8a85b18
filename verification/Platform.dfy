/**
  What the runtime supplies and this library builds on: UTF-8, unpadded
  base64url, and JavaScript's `Number`. They are values with laws, so nothing
  here depends on how the runtime implements them.

  Digests and tags are symbolic: one constructor applied to what was hashed, so
  equal digests mean equal preimages.
 */
module Platform {
  import opened Prelude
  import opened Texts

  datatype Host = Host(
    utf8: string -> seq<byte>,
    fromUtf8: seq<byte> -> Option<string>,
    base64: seq<byte> -> string,
    fromBase64: string -> Option<seq<byte>>,
    number: string -> Option<int>)

  predicate UrlSafe(c: char) {
    'A' <= c <= 'Z' || 'a' <= c <= 'z' || '0' <= c <= '9' || c == '-' || c == '_'
  }

  predicate AllUrlSafe(s: string) { forall i :: 0 <= i < |s| ==> UrlSafe(s[i]) }

  /** The laws of UTF-8 and of RFC 4648 section 5 without padding. */
  ghost predicate Lawful(h: Host) {
    && h.utf8("") == []
    && (forall s: string :: h.fromUtf8(h.utf8(s)) == Some(s))
    && (forall b: seq<byte> :: h.fromBase64(h.base64(b)) == Some(b) && AllUrlSafe(h.base64(b)))
    && h.base64([]) == ""
  }

  /** `number` answers the value of a canonical decimal that is a safe integer. */
  ghost predicate ReadsDecimals(h: Host) {
    forall n: nat :: n <= MAX_SAFE_INTEGER ==> h.number(Decimal(n)) == Some(n)
  }

  const MAX_SAFE_INTEGER := 0x1f_ffff_ffff_ffff

  // ---------------------------------------------------------------------------
  // The laws are consistent
  // ---------------------------------------------------------------------------

  /** A platform that keeps the laws: fixed-width code points, letters for half-octets, plain decimals. */
  function PlainHost(): Host {
    Host(s => CodePoints(s), b => FromCodePoints(b), b => HalfOctets(b), s => FromHalfOctets(s),
         s => if AllDigits(s) then Some(DecimalValue(s)) else None)
  }

  function CodePoints(s: string): seq<byte> {
    if s == "" then []
    else
      var code := s[0] as int;
      [code / 0x1_0000, code / 0x100 % 0x100, code % 0x100] + CodePoints(s[1..])
  }

  function FromCodePoints(b: seq<byte>): Option<string> {
    if b == [] then Some("")
    else if |b| < 3 then None
    else
      var code: int := b[0] as int * 0x1_0000 + b[1] as int * 0x100 + b[2] as int;
      if !(0 <= code < 0xD800 || 0xE000 <= code < 0x11_0000) then None
      else match FromCodePoints(b[3..])
        case None => None
        case Some(rest) => Some([code as char] + rest)
  }

  function HalfLetter(half: int): (c: char)
    requires 0 <= half < 16
    ensures 'A' <= c <= 'P' && c as int - 'A' as int == half
  {
    (half + 'A' as int) as char
  }

  function HalfOctets(b: seq<byte>): string {
    if b == [] then ""
    else
      var octet := b[0] as int;
      [HalfLetter(octet / 16), HalfLetter(octet % 16)] + HalfOctets(b[1..])
  }

  function FromHalfOctets(s: string): Option<seq<byte>> {
    if s == "" then Some([])
    else if |s| < 2 || !('A' <= s[0] <= 'P' && 'A' <= s[1] <= 'P') then None
    else match FromHalfOctets(s[2..])
      case None => None
      case Some(rest) => Some([(s[0] as int - 'A' as int) * 16 + (s[1] as int - 'A' as int)] + rest)
  }

  lemma {:induction false} CodePointsBack(s: string)
    ensures FromCodePoints(CodePoints(s)) == Some(s)
  {
    if s != "" {
      CodePointsBack(s[1..]);
      assert CodePoints(s)[3..] == CodePoints(s[1..]);
      assert s == [s[0]] + s[1..];
    }
  }

  lemma {:induction false} HalfOctetsBack(b: seq<byte>)
    ensures FromHalfOctets(HalfOctets(b)) == Some(b)
  {
    hide HalfLetter;
    if b != [] {
      HalfOctetsBack(b[1..]);
      var octet := b[0] as int;
      PairBack(HalfLetter(octet / 16), HalfLetter(octet % 16), HalfOctets(b[1..]));
      assert octet / 16 * 16 + octet % 16 == octet;
      assert b == [b[0]] + b[1..];
    }
  }

  lemma PairBack(x: char, y: char, tail: string)
    requires 'A' <= x <= 'P' && 'A' <= y <= 'P' && FromHalfOctets(tail).Some?
    ensures FromHalfOctets([x, y] + tail)
            == Some([(x as int - 'A' as int) * 16 + (y as int - 'A' as int)] + FromHalfOctets(tail).value)
  {
    assert ([x, y] + tail)[2..] == tail;
  }

  lemma {:induction false} HalfOctetsUrlSafe(b: seq<byte>)
    ensures AllUrlSafe(HalfOctets(b))
  {
    hide HalfLetter;
    if b != [] {
      HalfOctetsUrlSafe(b[1..]);
    }
  }

  lemma LawsAreConsistent()
    ensures Lawful(PlainHost()) && ReadsDecimals(PlainHost())
  {
    forall s: string ensures FromCodePoints(CodePoints(s)) == Some(s) {
      CodePointsBack(s);
    }
    forall b: seq<byte> ensures FromHalfOctets(HalfOctets(b)) == Some(b) && AllUrlSafe(HalfOctets(b)) {
      HalfOctetsBack(b);
      HalfOctetsUrlSafe(b);
    }
    forall n: nat ensures DecimalValue(Decimal(n)) == n {
      DecimalDenotes(n);
    }
  }

  /** Only the empty byte string encodes to the empty text. */
  lemma NonEmptyEncoding(h: Host, b: seq<byte>)
    requires Lawful(h)
    ensures h.base64(b) == "" <==> b == []
  {
    assert h.fromBase64(h.base64(b)) == Some(b) && h.fromBase64(h.base64([])) == Some([]);
  }

  lemma NonEmptyUtf8(h: Host, s: string)
    requires Lawful(h)
    ensures h.utf8(s) == [] <==> s == ""
  {
    assert h.fromUtf8(h.utf8(s)) == Some(s) && h.fromUtf8(h.utf8("")) == Some("");
  }

  /** A base64url text contains none of the separators the formats are built with. */
  lemma NoSeparator(h: Host, b: seq<byte>, c: char)
    requires Lawful(h) && !UrlSafe(c)
    ensures c !in h.base64(b)
  {
    assert AllUrlSafe(h.base64(b));
  }

  /** `Token.hashToken`. */
  datatype Digest = Sha256(preimage: string)

  /** A stored tag: one this instance signed, or bytes that are not one. */
  datatype Mac = Hmac(signed: seq<byte>) | NotATag(raw: seq<byte>)
}
