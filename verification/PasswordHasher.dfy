/**
  The stored password hash: `<algorithm>$<params>$<salt>$<key>`, its parser, the
  bounds put on what a stored string may ask the KDF for, and verification.

  The KDFs themselves are a parameter: one function of the call made to them.
 */
module PasswordHasher {
  import opened Prelude
  import opened Bitwise
  import opened Texts
  import opened Platform

  datatype Algorithm = Scrypt | Pbkdf2

  datatype HashError =
    | MalformedHash | UnknownAlgorithm | MalformedParameters | MalformedSalt | MalformedDigest
    | MalformedScryptParameters | MalformedPbkdf2Parameters | KdfFailed

  datatype ParsedHash = ParsedHash(algorithm: Algorithm, params: map<string, string>, salt: seq<byte>, key: seq<byte>)

  /** One call of a KDF, with everything that decides what it costs. */
  datatype KdfCall =
    | ScryptCall(password: string, salt: seq<byte>, N: int, r: int, p: int, dkLen: int, maxmem: int)
    | Pbkdf2Call(password: string, salt: seq<byte>, iterations: int, dkLen: int)

  type Kdf = KdfCall -> Result<seq<byte>, HashError>

  const MINIMUM_DIGEST_BYTES := 16
  const MAXIMUM_DIGEST_BYTES := 128
  const MAXIMUM_SALT_BYTES := 64

  /** Accumulates every difference, and only then answers. */
  method TimingSafeEqual(a: seq<byte>, b: seq<byte>) returns (equal: bool)
    ensures equal <==> a == b
  {
    if |a| != |b| {
      return false;
    }
    var diff: nat := 0;
    for i := 0 to |a|
      invariant diff == 0 <==> a[..i] == b[..i]
    {
      XorZero(a[i], b[i]);
      OrZero(diff, Xor(a[i], b[i]));
      assert a[..i + 1] == a[..i] + [a[i]] && b[..i + 1] == b[..i] + [b[i]];
      diff := Or(diff, Xor(a[i], b[i]));
    }
    assert a[..|a|] == a && b[..|b|] == b;
    return diff == 0;
  }

  // ---------------------------------------------------------------------------
  // The format
  // ---------------------------------------------------------------------------

  function AlgorithmName(a: Algorithm): string { if a.Scrypt? then "scrypt" else "pbkdf2" }

  function FormatHash(h: Host, a: Algorithm, params: string, salt: seq<byte>, key: seq<byte>): string {
    AlgorithmName(a) + ['$'] + params + ['$'] + h.base64(salt) + ['$'] + h.base64(key)
  }

  /** What a list of `name=value` pairs adds to a dictionary: later pairs win. */
  function ParamsOf(pairs: seq<string>): Result<map<string, string>, HashError> {
    if pairs == [] then Success(map[])
    else
      var last := pairs[|pairs| - 1];
      var at := IndexOf(last, '=');
      match ParamsOf(pairs[..|pairs| - 1])
      case Failure(e) => Failure(e)
      case Success(before) =>
        if at <= 0 then Failure(MalformedParameters) else Success(before[last[..at] := last[at + 1..]])
  }

  function ParamsOfSegment(segment: string): Result<map<string, string>, HashError> {
    if segment == "" then Success(map[]) else ParamsOf(Split(segment, ','))
  }

  function Decoded(h: Host, segment: string, least: nat, most: nat): Option<seq<byte>> {
    match h.fromBase64(segment)
    case Some(bytes) => if least <= |bytes| <= most then Some(bytes) else None
    case None => None
  }

  function Parsed(h: Host, hash: string): Result<ParsedHash, HashError> {
    var segments := Split(hash, '$');
    if |segments| != 4 then Failure(MalformedHash)
    else if segments[0] != "scrypt" && segments[0] != "pbkdf2" then Failure(UnknownAlgorithm)
    else match ParamsOfSegment(segments[1])
      case Failure(e) => Failure(e)
      case Success(params) =>
        match (Decoded(h, segments[2], 1, MAXIMUM_SALT_BYTES),
               Decoded(h, segments[3], MINIMUM_DIGEST_BYTES, MAXIMUM_DIGEST_BYTES))
        case (None, _) => Failure(MalformedSalt)
        case (_, None) => Failure(MalformedDigest)
        case (Some(salt), Some(key)) =>
          Success(ParsedHash(if segments[0] == "scrypt" then Scrypt else Pbkdf2, params, salt, key))
  }

  /** The parser, filling its dictionary pair by pair. */
  method ParseHash(h: Host, hash: string) returns (r: Result<ParsedHash, HashError>)
    ensures r == Parsed(h, hash)
  {
    var segments := Split(hash, '$');
    if |segments| != 4 {
      return Failure(MalformedHash);
    }
    if segments[0] != "scrypt" && segments[0] != "pbkdf2" {
      return Failure(UnknownAlgorithm);
    }
    var params: map<string, string> := map[];
    if |segments[1]| > 0 {
      var pairs := Split(segments[1], ',');
      for i := 0 to |pairs|
        invariant ParamsOf(pairs[..i]) == Success(params)
      {
        assert pairs[..i + 1][..i] == pairs[..i];
        var separator := IndexOf(pairs[i], '=');
        if separator <= 0 {
          FailureSticks(pairs, i + 1);
          return Failure(MalformedParameters);
        }
        params := params[pairs[i][..separator] := pairs[i][separator + 1..]];
      }
      assert pairs[..|pairs|] == pairs;
    }
    var salt := Decoded(h, segments[2], 1, MAXIMUM_SALT_BYTES);
    if salt.None? {
      return Failure(MalformedSalt);
    }
    var key := Decoded(h, segments[3], MINIMUM_DIGEST_BYTES, MAXIMUM_DIGEST_BYTES);
    if key.None? {
      return Failure(MalformedDigest);
    }
    return Success(ParsedHash(if segments[0] == "scrypt" then Scrypt else Pbkdf2, params, salt.value, key.value));
  }

  lemma {:induction false} FailureSticks(pairs: seq<string>, i: nat)
    requires i <= |pairs| && ParamsOf(pairs[..i]) == Failure(MalformedParameters)
    ensures ParamsOf(pairs) == Failure(MalformedParameters)
    decreases |pairs|
  {
    if i == |pairs| {
      assert pairs[..i] == pairs;
    } else {
      assert pairs[..|pairs| - 1][..i] == pairs[..i];
      FailureSticks(pairs[..|pairs| - 1], i);
    }
  }

  // ---------------------------------------------------------------------------
  // Bounds
  // ---------------------------------------------------------------------------

  function ParameterCeiling(name: string): Option<int> {
    if name == "n" then Some(4_194_304)
    else if name == "r" then Some(32)
    else if name == "p" then Some(16)
    else if name == "i" then Some(10_000_000)
    else None
  }

  function ParameterFloor(name: string): Option<int> {
    if name == "n" then Some(1024) else if name == "i" then Some(10_000) else None
  }

  function PositiveIntParam(h: Host, params: map<string, string>, name: string, reason: HashError)
      : Result<int, HashError> {
    if name !in params then Failure(reason)
    else match h.number(params[name])
      case None => Failure(reason)
      case Some(value) =>
        if value <= 0 || value > MAX_SAFE_INTEGER then Failure(reason)
        else if ParameterCeiling(name).Some? && value > ParameterCeiling(name).value then Failure(reason)
        else if ParameterFloor(name).Some? && value < ParameterFloor(name).value then Failure(reason)
        else Success(value)
  }

  function ScryptMaxmem(N: int, r: int): int { 2 * 128 * N * r + 1024 * 1024 }

  // ---------------------------------------------------------------------------
  // Verification
  // ---------------------------------------------------------------------------

  /** The KDF call a stored hash asks for, and the key its answer is compared with. */
  function Planned(h: Host, password: string, hash: string): Result<(KdfCall, seq<byte>), HashError> {
    match Parsed(h, hash)
    case Failure(e) => Failure(e)
    case Success(parsed) =>
      if parsed.algorithm.Scrypt? then
        match (PositiveIntParam(h, parsed.params, "n", MalformedScryptParameters),
               PositiveIntParam(h, parsed.params, "r", MalformedScryptParameters),
               PositiveIntParam(h, parsed.params, "p", MalformedScryptParameters))
        case (Success(N), Success(r), Success(p)) =>
          Success((ScryptCall(password, parsed.salt, N, r, p, |parsed.key|, ScryptMaxmem(N, r)), parsed.key))
        case _ => Failure(MalformedScryptParameters)
      else
        match PositiveIntParam(h, parsed.params, "i", MalformedPbkdf2Parameters)
        case Success(iterations) => Success((Pbkdf2Call(password, parsed.salt, iterations, |parsed.key|), parsed.key))
        case Failure(e) => Failure(e)
  }

  function Verified(h: Host, kdf: Kdf, password: string, hash: string): Result<bool, HashError> {
    match Planned(h, password, hash)
    case Failure(e) => Failure(e)
    case Success((call, key)) =>
      match kdf(call)
      case Failure(e) => Failure(e)
      case Success(derived) => Success(derived == key)
  }

  method VerifyHash(h: Host, kdf: Kdf, password: string, hash: string) returns (r: Result<bool, HashError>)
    ensures r == Verified(h, kdf, password, hash)
  {
    var parsed := ParseHash(h, hash);
    if parsed.Failure? {
      return Failure(parsed.error);
    }
    var params, salt, key := parsed.value.params, parsed.value.salt, parsed.value.key;
    var call: KdfCall;
    if parsed.value.algorithm.Scrypt? {
      var N := PositiveIntParam(h, params, "n", MalformedScryptParameters);
      var r' := PositiveIntParam(h, params, "r", MalformedScryptParameters);
      var p := PositiveIntParam(h, params, "p", MalformedScryptParameters);
      if N.Failure? || r'.Failure? || p.Failure? {
        return Failure(MalformedScryptParameters);
      }
      call := ScryptCall(password, salt, N.value, r'.value, p.value, |key|, ScryptMaxmem(N.value, r'.value));
    } else {
      var iterations := PositiveIntParam(h, params, "i", MalformedPbkdf2Parameters);
      if iterations.Failure? {
        return Failure(iterations.error);
      }
      call := Pbkdf2Call(password, salt, iterations.value, |key|);
    }
    var derived := kdf(call);
    if derived.Failure? {
      return Failure(derived.error);
    }
    var equal := TimingSafeEqual(derived.value, key);
    return Success(equal);
  }

  predicate InBounds(call: KdfCall) {
    && 1 <= |call.salt| <= MAXIMUM_SALT_BYTES
    && MINIMUM_DIGEST_BYTES <= call.dkLen <= MAXIMUM_DIGEST_BYTES
    && match call
       case ScryptCall(_, _, N, r, p, _, maxmem) =>
         1024 <= N <= 4_194_304 && 1 <= r <= 32 && 1 <= p <= 16 && maxmem <= 0x8_0000_0000 + 0x10_0000
       case Pbkdf2Call(_, _, iterations, _) => 10_000 <= iterations <= 10_000_000
  }

  /** Whatever string is stored, the KDF is only ever called within its bounds, and on the password offered. */
  lemma StoredHashIsBounded(h: Host, password: string, hash: string)
    requires Planned(h, password, hash).Success?
    ensures var (call, key) := Planned(h, password, hash).value;
            && InBounds(call) && call.password == password && call.dkLen == |key|
            && (call.ScryptCall? ==> call.maxmem == 256 * call.N * call.r + 0x10_0000 > 128 * call.N * call.r)
  {
    var (call, key) := Planned(h, password, hash).value;
    if call.ScryptCall? {
      assert 0 <= call.N * call.r <= 4_194_304 * 32 by {
        Product(call.N, call.r, 4_194_304, 32);
      }
    }
  }

  lemma Product(a: int, b: int, m: int, n: int)
    requires 0 <= a <= m && 0 <= b <= n
    ensures 0 <= a * b <= m * n
  {
    assert a * b <= m * b && m * b <= m * n;
  }

  // ---------------------------------------------------------------------------
  // Hashing, and reading a hash back
  // ---------------------------------------------------------------------------

  /** The deployment's parameters, as `ScryptOptions` and `Pbkdf2Options` resolve them. */
  datatype Cost = ScryptCost(N: nat, r: nat, p: nat, dkLen: nat) | Pbkdf2Cost(iterations: nat, dkLen: nat)

  function ParameterPairs(c: Cost): (pairs: seq<string>)
    ensures |pairs| > 0
  {
    match c
    case ScryptCost(N, r, p, _) => ["n=" + Decimal(N), "r=" + Decimal(r), "p=" + Decimal(p)]
    case Pbkdf2Cost(iterations, _) => ["i=" + Decimal(iterations)]
  }

  function CallFor(c: Cost, password: string, salt: seq<byte>): KdfCall {
    match c
    case ScryptCost(N, r, p, dkLen) => ScryptCall(password, salt, N, r, p, dkLen, ScryptMaxmem(N, r))
    case Pbkdf2Cost(iterations, dkLen) => Pbkdf2Call(password, salt, iterations, dkLen)
  }

  function Hashed(h: Host, kdf: Kdf, c: Cost, password: string, salt: seq<byte>): Result<string, HashError> {
    match kdf(CallFor(c, password, salt))
    case Failure(e) => Failure(e)
    case Success(key) =>
      Success(FormatHash(h, if c.ScryptCost? then Scrypt else Pbkdf2, Join(ParameterPairs(c), ','), salt, key))
  }

  predicate SafeCost(c: Cost) {
    match c
    case ScryptCost(N, r, p, _) => N <= MAX_SAFE_INTEGER && r <= MAX_SAFE_INTEGER && p <= MAX_SAFE_INTEGER
    case Pbkdf2Cost(iterations, _) => iterations <= MAX_SAFE_INTEGER
  }

  /** Parsing what `FormatHash` wrote recovers every part of it. */
  lemma ParseRecovers(h: Host, c: Cost, salt: seq<byte>, key: seq<byte>)
    requires Lawful(h)
    requires 1 <= |salt| <= MAXIMUM_SALT_BYTES && MINIMUM_DIGEST_BYTES <= |key| <= MAXIMUM_DIGEST_BYTES
    ensures Parsed(h, FormatHash(h, if c.ScryptCost? then Scrypt else Pbkdf2, Join(ParameterPairs(c), ','), salt, key))
         == Success(ParsedHash(if c.ScryptCost? then Scrypt else Pbkdf2, DecimalParams(c), salt, key))
  {
    var a := if c.ScryptCost? then Scrypt else Pbkdf2;
    FormatSplits(h, a, c, salt, key);
    ParamsRecovered(c);
    assert h.fromBase64(h.base64(salt)) == Some(salt) && h.fromBase64(h.base64(key)) == Some(key);
  }

  function DecimalParams(c: Cost): map<string, string> {
    match c
    case ScryptCost(N, r, p, _) => map["n" := Decimal(N), "r" := Decimal(r), "p" := Decimal(p)]
    case Pbkdf2Cost(iterations, _) => map["i" := Decimal(iterations)]
  }

  lemma NoSeparatorInDecimal(n: nat, c: char)
    requires !IsDigit(c)
    ensures c !in Decimal(n)
  {}

  lemma PairSplits(name: char, n: nat)
    requires name != '=' && name != ',' && name != '$'
    ensures var pair := [name, '='] + Decimal(n);
            && IndexOf(pair, '=') == 1 && pair[..1] == [name] && pair[2..] == Decimal(n)
            && ',' !in pair && '$' !in pair
  {
    NoSeparatorInDecimal(n, ',');
    NoSeparatorInDecimal(n, '$');
    var pair := [name, '='] + Decimal(n);
    assert pair == [name] + ['='] + Decimal(n);
    IndexOfSeparator([name], '=', Decimal(n));
  }

  lemma ParamsSnoc(pairs: seq<string>, name: char, n: nat)
    requires name != '=' && name != ',' && name != '$' && ParamsOf(pairs).Success?
    ensures ParamsOf(pairs + [[name, '='] + Decimal(n)]) == Success(ParamsOf(pairs).value[[name] := Decimal(n)])
  {
    PairSplits(name, n);
    var extended := pairs + [[name, '='] + Decimal(n)];
    assert extended[..|extended| - 1] == pairs;
  }

  lemma ParamsRecovered(c: Cost)
    ensures ParamsOfSegment(Join(ParameterPairs(c), ',')) == Success(DecimalParams(c))
  {
    hide Decimal, Split;
    var pairs := ParameterPairs(c);
    match c {
      case ScryptCost(N, r, p, _) =>
        PairSplits('n', N);
        PairSplits('r', r);
        PairSplits('p', p);
        ParamsSnoc([], 'n', N);
        ParamsSnoc(["n=" + Decimal(N)], 'r', r);
        ParamsSnoc(["n=" + Decimal(N), "r=" + Decimal(r)], 'p', p);
        assert [] + ["n=" + Decimal(N)] == ["n=" + Decimal(N)];
        assert ["n=" + Decimal(N)] + ["r=" + Decimal(r)] == ["n=" + Decimal(N), "r=" + Decimal(r)];
        assert ["n=" + Decimal(N), "r=" + Decimal(r)] + ["p=" + Decimal(p)] == pairs;
      case Pbkdf2Cost(i, _) =>
        PairSplits('i', i);
        ParamsSnoc([], 'i', i);
        assert [] + ["i=" + Decimal(i)] == pairs;
    }
    SplitJoin(pairs, ',');
  }

  lemma {:induction false} JoinAvoids(parts: seq<string>, separator: char, c: char)
    requires |parts| > 0 && c != separator && forall i :: 0 <= i < |parts| ==> c !in parts[i]
    ensures c !in Join(parts, separator)
    decreases |parts|
  {
    if |parts| > 1 {
      JoinAvoids(parts[1..], separator, c);
    }
  }

  lemma FormatSplits(h: Host, a: Algorithm, c: Cost, salt: seq<byte>, key: seq<byte>)
    requires Lawful(h)
    ensures Split(FormatHash(h, a, Join(ParameterPairs(c), ','), salt, key), '$')
         == [AlgorithmName(a), Join(ParameterPairs(c), ','), h.base64(salt), h.base64(key)]
  {
    hide Decimal, Split;
    var params := Join(ParameterPairs(c), ',');
    match c {
      case ScryptCost(N, r, p, _) =>
        PairSplits('n', N);
        PairSplits('r', r);
        PairSplits('p', p);
      case Pbkdf2Cost(i, _) => PairSplits('i', i);
    }
    JoinAvoids(ParameterPairs(c), ',', '$');
    NoSeparator(h, salt, '$');
    NoSeparator(h, key, '$');
    var parts := [AlgorithmName(a), params, h.base64(salt), h.base64(key)];
    assert '$' !in AlgorithmName(a);
    JoinOfFour(AlgorithmName(a), params, h.base64(salt), h.base64(key));
    SplitJoin(parts, '$');
  }

  lemma JoinOfFour(w: string, x: string, y: string, z: string)
    ensures Join([w, x, y, z], '$') == w + ['$'] + x + ['$'] + y + ['$'] + z
  {
    var s := ['$'];
    assert [w, x, y, z][1..] == [x, y, z] && [x, y, z][1..] == [y, z] && [y, z][1..] == [z];
    assert Join([z], '$') == z;
    assert Join([y, z], '$') == y + s + z;
    assert Join([x, y, z], '$') == x + s + (y + s + z);
    assert Join([w, x, y, z], '$') == w + s + (x + s + (y + s + z));
    calc {
      w + s + (x + s + (y + s + z));
      w + s + x + s + (y + s + z);
      w + s + x + s + y + s + z;
    }
  }

  /**
    Verifying a freshly hashed password: within the bounds, the answer is whether
    the KDF derives the same key from the password offered; outside them, the hash
    just written is refused.
   */
  lemma HashThenVerify(h: Host, kdf: Kdf, c: Cost, password: string, salt: seq<byte>, offered: string)
    requires Lawful(h) && ReadsDecimals(h) && SafeCost(c)
    requires Hashed(h, kdf, c, password, salt).Success?
    requires |kdf(CallFor(c, password, salt)).value| == c.dkLen
    ensures var answer := Verified(h, kdf, offered, Hashed(h, kdf, c, password, salt).value);
            var again := kdf(CallFor(c, offered, salt));
            if !InBounds(CallFor(c, password, salt)) then answer.Failure?
            else if again.Failure? then answer == Failure(again.error)
            else answer == Success(again == kdf(CallFor(c, password, salt)))
  {
    var key := kdf(CallFor(c, password, salt)).value;
    var hash := Hashed(h, kdf, c, password, salt).value;
    if 1 <= |salt| <= MAXIMUM_SALT_BYTES && MINIMUM_DIGEST_BYTES <= |key| <= MAXIMUM_DIGEST_BYTES {
      ParseRecovers(h, c, salt, key);
      PlanRecovers(h, c, offered, hash, salt, key);
    } else {
      UnreadableParts(h, c, salt, key);
    }
  }

  lemma ReadBack(h: Host, params: map<string, string>, name: string, n: nat, reason: HashError)
    requires ReadsDecimals(h) && n <= MAX_SAFE_INTEGER && name in params && params[name] == Decimal(n)
    ensures PositiveIntParam(h, params, name, reason)
         == if n > 0 && (ParameterCeiling(name).Some? ==> n <= ParameterCeiling(name).value)
                     && (ParameterFloor(name).Some? ==> n >= ParameterFloor(name).value)
            then Success(n) else Failure(reason)
  {
    hide Decimal;
  }

  lemma PlanRecovers(h: Host, c: Cost, offered: string, hash: string, salt: seq<byte>, key: seq<byte>)
    requires ReadsDecimals(h) && SafeCost(c) && |key| == c.dkLen
    requires 1 <= |salt| <= MAXIMUM_SALT_BYTES && MINIMUM_DIGEST_BYTES <= |key| <= MAXIMUM_DIGEST_BYTES
    requires Parsed(h, hash)
             == Success(ParsedHash(if c.ScryptCost? then Scrypt else Pbkdf2, DecimalParams(c), salt, key))
    ensures InBounds(CallFor(c, offered, salt)) ==>
              Planned(h, offered, hash) == Success((CallFor(c, offered, salt), key))
    ensures !InBounds(CallFor(c, offered, salt)) ==> Planned(h, offered, hash).Failure?
  {
    hide Decimal, Parsed;
    match c {
      case ScryptCost(N, r, p, _) =>
        ReadBack(h, DecimalParams(c), "n", N, MalformedScryptParameters);
        ReadBack(h, DecimalParams(c), "r", r, MalformedScryptParameters);
        ReadBack(h, DecimalParams(c), "p", p, MalformedScryptParameters);
        if 1024 <= N <= 4_194_304 && 1 <= r <= 32 {
          Product(N, r, 4_194_304, 32);
        }
      case Pbkdf2Cost(i, _) =>
        ReadBack(h, DecimalParams(c), "i", i, MalformedPbkdf2Parameters);
    }
  }

  lemma UnreadableParts(h: Host, c: Cost, salt: seq<byte>, key: seq<byte>)
    requires Lawful(h)
    requires !(1 <= |salt| <= MAXIMUM_SALT_BYTES && MINIMUM_DIGEST_BYTES <= |key| <= MAXIMUM_DIGEST_BYTES)
    ensures Parsed(h,
                   FormatHash(h, if c.ScryptCost? then Scrypt
                              else Pbkdf2, Join(ParameterPairs(c), ','), salt, key)).Failure?
  {
    hide Decimal, Split;
    FormatSplits(h, if c.ScryptCost? then Scrypt else Pbkdf2, c, salt, key);
    assert h.fromBase64(h.base64(salt)) == Some(salt) && h.fromBase64(h.base64(key)) == Some(key);
  }
}
