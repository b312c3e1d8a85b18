/**
  RFC 4226 and RFC 6238 one-time codes: the counter bytes, the truncation, the
  acceptance window, and the replay rule over whole runs of attempts.

  The keyed HMAC is a parameter `mac`, since WebCrypto computes it.
 */
module Totp {
  import opened Prelude
  import opened Numerals
  import opened Bitwise
  import opened Texts

  // ---------------------------------------------------------------------------
  // The counter
  // ---------------------------------------------------------------------------

  /** The counter as RFC 4226 fixes it: eight octets, big-endian. */
  function CounterOctets(counter: int): (r: seq<byte>)
    ensures |r| == 8
  {
    ToDigits(counter, 256, 8)
  }

  /** The octets are the 64-bit form, so counters less than 2^64 apart never share them. */
  lemma CounterOctetsInjective(c: int, d: int)
    requires -0x1_0000_0000_0000_0000 < c - d < 0x1_0000_0000_0000_0000
    ensures Value(CounterOctets(c), 256) == c % 0x1_0000_0000_0000_0000
    ensures CounterOctets(c) == CounterOctets(d) <==> c == d
  {
    hide Value, ToDigits, Pow;
    EightOctets();
    ValueToDigits(c, 256, 8);
    ValueToDigits(d, 256, 8);
  }

  lemma EightOctets()
    ensures Pow(256, 4) == 0x1_0000_0000 && Pow(256, 8) == 0x1_0000_0000_0000_0000
  {
    assert Pow(256, 2) == 0x1_0000;
    PowAdd(256, 2, 2);
    PowAdd(256, 4, 4);
  }

  /** Splitting a number at `low` octets splits its octets there. */
  lemma {:induction false} OctetsAcrossWords(n: int, low: nat)
    ensures ToDigits(n, 256, 4 + low) == ToDigits(n / Pow(256, low), 256, 4) + ToDigits(n, 256, low)
    decreases low
  {
    if low > 0 {
      NestedQuotient(n, 256, Pow(256, low - 1));
      OctetsAcrossWords(n / 256, low - 1);
    } else {
      assert n / 1 == n;
    }
  }

  lemma NestedQuotient(n: int, a: int, b: int)
    requires a > 0 && b > 0
    ensures a * b > 0 && n / (a * b) == n / a / b
  {
    ModSplit(n, a, b);
    assert n == n / a * a + n % a && n / a == n / a / b * b + n / a % b;
    assert (n / a / b * b + n / a % b) * a == n / a / b * (a * b) + n / a % b * a;
    DivisionUnique(n / (a * b), n % (a * b), n / a / b, n / a % b * a + n % a, a * b);
  }

  /** The low octets only depend on the number modulo `256^width`. */
  lemma {:induction false} OctetsOfLowWord(n: int, width: nat)
    ensures ToDigits(n % Pow(256, width), 256, width) == ToDigits(n, 256, width)
    decreases width
  {
    if width > 0 {
      var p := Pow(256, width - 1);
      ModSplit(n, 256, p);
      DivisionUnique(n % Pow(256, width) / 256, n % Pow(256, width) % 256, n / 256 % p, n % 256, 256);
      OctetsOfLowWord(n / 256, width - 1);
    }
  }

  /** `x & 0xff` on a number of any sign or size, which JavaScript first reduces to 32 bits. */
  function LowOctet(x: int): nat { And(x % 0x1_0000_0000, 0xff) }

  lemma LowOctetIs(x: int)
    ensures LowOctet(x) == x % 256
  {
    FullRegister();
    AndMask(x % 0x1_0000_0000, 8);
    ModMod(x, 256, 0x100_0000);
  }

  lemma PeelOctet(n: int, width: nat)
    ensures ToDigits(n, 256, width + 1) == ToDigits(n / 256, 256, width) + [n % 256]
    ensures ToDigits(n, 256, 0) == []
  {}

  /** The octets of `word` not written yet, followed by those that are, `start` octets in. */
  ghost predicate Filling(now: seq<byte>, was: seq<byte>, start: nat, word: int, rest: int, left: nat) {
    && start + 4 <= |was| == |now| && left <= 4
    && now[..start] == was[..start] && now[start + 4..] == was[start + 4..]
    && ToDigits(word, 256, 4) == ToDigits(rest, 256, left) + now[start + left..start + 4]
  }

  lemma FillOne(now: seq<byte>, next: seq<byte>, was: seq<byte>, start: nat, word: int, rest: int, left: nat)
    requires Filling(now, was, start, word, rest, left + 1)
    requires LowOctet(rest) < 256 && next == now[start + left := LowOctet(rest)]
    ensures Filling(next, was, start, word, rest / 0x100, left)
  {
    hide ToDigits, LowOctet;
    LowOctetIs(rest);
    PeelOctet(rest, left);
    assert next[start + left..start + 4] == [LowOctet(rest)] + now[start + left + 1..start + 4];
  }

  lemma Filled(now: seq<byte>, was: seq<byte>, start: nat, word: int, rest: int)
    requires Filling(now, was, start, word, rest, 0)
    ensures now == was[..start] + ToDigits(word, 256, 4) + was[start + 4..]
  {
    assert now == now[..start] + now[start..start + 4] + now[start + 4..];
  }

  /** One 32-bit half, written from its low octet upwards. */
  method WriteWord(bytes: array<byte>, start: nat, word: int)
    requires start + 4 <= bytes.Length
    modifies bytes
    ensures bytes[..] == old(bytes[..start]) + ToDigits(word, 256, 4) + old(bytes[start + 4..])
  {
    hide ToDigits, LowOctet, Filling;
    var rest, index := word, start + 3;
    NothingFilled(bytes[..], start, word);
    while index >= start
      invariant start - 1 <= index <= start + 3
      invariant Filling(bytes[..], old(bytes[..]), start, word, rest, index + 1 - start)
    {
      ghost var now := bytes[..];
      LowOctetIs(rest);
      bytes[index] := LowOctet(rest);
      FillOne(now, bytes[..], old(bytes[..]), start, word, rest, index - start);
      rest := rest / 0x100;
      index := index - 1;
    }
    Filled(bytes[..], old(bytes[..]), start, word, rest);
  }

  lemma NothingFilled(was: seq<byte>, start: nat, word: int)
    requires start + 4 <= |was|
    ensures Filling(was, was, start, word, word, 4)
  {
    hide ToDigits;
  }

  /** Both halves, since the bitwise operators only see 32 bits at a time. */
  method CounterBytes(counter: int) returns (bytes: array<byte>)
    ensures fresh(bytes) && bytes[..] == CounterOctets(counter)
  {
    hide ToDigits, CounterOctets;
    bytes := new byte[8](_ => 0);
    var high, low := counter / 0x1_0000_0000, counter % 0x1_0000_0000;
    WriteWord(bytes, 4, low);
    assert bytes[4..] == ToDigits(low, 256, 4);
    WriteWord(bytes, 0, high);
    WordsJoin(counter);
  }

  lemma WordsJoin(counter: int)
    ensures CounterOctets(counter)
            == ToDigits(counter / 0x1_0000_0000, 256, 4) + ToDigits(counter % 0x1_0000_0000, 256, 4)
  {
    hide ToDigits, Pow;
    EightOctets();
    OctetsOfLowWord(counter, 4);
    OctetsAcrossWords(counter, 4);
  }

  // ---------------------------------------------------------------------------
  // Dynamic truncation
  // ---------------------------------------------------------------------------

  /** Four octets of the tag, the top bit dropped, joined by shifts and `|`. */
  function Binary(mac: seq<byte>, offset: nat): nat
    requires offset + 4 <= |mac|
  {
    Or(Or(Or(ShiftLeft(And(mac[offset], 0x7f), 24), ShiftLeft(mac[offset + 1], 16)), ShiftLeft(mac[offset + 2], 8)),
       mac[offset + 3])
  }

  /** The last nibble picks the offset, and what it picks is reduced to `digits` digits. */
  function Truncate(mac: seq<byte>, digits: nat): string
    requires |mac| >= 20
  {
    var offset := And(mac[|mac| - 1], 0x0f);
    LastNibble(mac[|mac| - 1]);
    PadStart(Decimal(Binary(mac, offset) % Pow(10, digits)), digits)
  }

  lemma LastNibble(x: byte)
    ensures And(x, 0x0f) == x % 16
  {
    AndMask(x, 4);
    assert Pow(2, 4) == 16;
  }

  lemma ValueOfFour(a: int, b: int, c: int, d: int)
    ensures Value([a, b, c, d], 256) == a * 0x100_0000 + b * 0x1_0000 + c * 0x100 + d
  {
    ValueSnoc([], a, 256);
    ValueSnoc([a], b, 256);
    ValueSnoc([a, b], c, 256);
    ValueSnoc([a, b, c], d, 256);
    assert [] + [a] == [a] && [a] + [b] == [a, b] && [a, b] + [c] == [a, b, c] && [a, b, c] + [d] == [a, b, c, d];
  }

  /** The shifted join is the 31-bit value of the four octets. */
  lemma BinaryIs31Bits(mac: seq<byte>, offset: nat)
    requires offset + 4 <= |mac|
    ensures Binary(mac, offset) == Value(mac[offset..offset + 4], 256) % 0x8000_0000
  {
    hide Or, And, ShiftLeft, Value;
    var a: int, b: int, c: int, d: int := mac[offset], mac[offset + 1], mac[offset + 2], mac[offset + 3];
    JoinedOctets(a, b, c, d);
    assert mac[offset..offset + 4] == [a, b, c, d];
    ValueOfFour(a, b, c, d);
  }

  lemma JoinedOctets(a: int, b: int, c: int, d: int)
    requires 0 <= a < 256 && 0 <= b < 256 && 0 <= c < 256 && 0 <= d < 256
    ensures Or(Or(Or(ShiftLeft(And(a, 0x7f), 24), ShiftLeft(b, 16)), ShiftLeft(c, 8)), d)
         == (a * 0x100_0000 + b * 0x1_0000 + c * 0x100 + d) % 0x8000_0000
  {
    hide Pow, Or, And, ShiftLeft;
    FullRegister();
    SevenBits(a);
    var top := a % 0x80;
    SmallShift(top, 24);
    SmallShift(b, 16);
    SmallShift(c, 8);
    OrDisjoint(top, b * 0x1_0000, 24);
    var two := top * 0x100 + b;
    assert Or(top * 0x100_0000, b * 0x1_0000) == two * 0x1_0000;
    OrDisjoint(two, c * 0x100, 16);
    var three := two * 0x100 + c;
    assert Or(two * 0x1_0000, c * 0x100) == three * 0x100;
    OrDisjoint(three, d, 8);
  }

  lemma SmallShift(x: nat, k: nat)
    requires x * Pow(2, k) < 0x1_0000_0000
    ensures ShiftLeft(x, k) == x * Pow(2, k)
  {
    MulNonNegative(x, Pow(2, k));
  }

  lemma SevenBits(a: nat)
    ensures And(a, 0x7f) == a % 0x80
  {
    AndMask(a, 7);
    assert Pow(2, 7) == 0x80;
  }

  /** RFC 4226 section 5.3: exactly `digits` decimal digits, denoting the truncated value. */
  lemma TruncateDenotes(mac: seq<byte>, digits: nat)
    requires |mac| >= 20 && digits >= 1
    ensures var offset := mac[|mac| - 1] % 16; var code := Truncate(mac, digits);
            && |code| == digits && AllDigits(code)
            && DecimalValue(code) == Value(mac[offset..offset + 4], 256) % 0x8000_0000 % Pow(10, digits)
  {
    LastNibble(mac[|mac| - 1]);
    var offset := mac[|mac| - 1] % 16;
    BinaryIs31Bits(mac, offset);
    PaddedDecimal(Binary(mac, offset) % Pow(10, digits), digits);
  }

  // ---------------------------------------------------------------------------
  // Comparing codes
  // ---------------------------------------------------------------------------

  /** Accumulates every difference rather than stopping at the first. */
  method EqualCodes(presented: string, expected: string) returns (equal: bool)
    ensures equal <==> presented == expected
  {
    if |presented| != |expected| {
      return false;
    }
    var difference: nat := 0;
    for index := 0 to |presented|
      invariant difference == 0 <==> presented[..index] == expected[..index]
    {
      var a, b := presented[index] as int, expected[index] as int;
      XorZero(a, b);
      OrZero(difference, Xor(a, b));
      assert presented[..index + 1] == presented[..index] + [presented[index]];
      assert expected[..index + 1] == expected[..index] + [expected[index]];
      difference := Or(difference, Xor(a, b));
    }
    assert presented[..|presented|] == presented && expected[..|expected|] == expected;
    return difference == 0;
  }

  // ---------------------------------------------------------------------------
  // The window
  // ---------------------------------------------------------------------------

  /** One enrolment's parameters. `window` counts the steps accepted either side of now. */
  datatype Settings = Settings(window: int, period: nat, digits: nat)

  predicate ValidSettings(s: Settings) { s.period > 0 && 6 <= s.digits <= 8 }

  /** An HMAC tag: SHA-1's, the shortest, has 20 octets. */
  type Tag = t: seq<byte> | |t| >= 20 witness seq(20, _ => 0)

  /** An HMAC keyed with one enrolment's secret. */
  type Mac = seq<byte> -> Tag

  /** `floor(epochSeconds / period)`. */
  function StepAt(now: int, period: nat): int
    requires period > 0
  {
    now / (1000 * period)
  }

  /** A step lasts `period` seconds: it is the one step whose milliseconds these are. */
  lemma StepHolds(now: int, period: nat, step: int)
    requires period > 0
    ensures StepAt(now, period) == step <==> 1000 * period * step <= now < 1000 * period * (step + 1)
  {
    var ms := 1000 * period;
    assert now == now / ms * ms + now % ms;
    if ms * step <= now < ms * (step + 1) {
      assert now - ms * step < ms && now == step * ms + (now - ms * step);
      DivisionUnique(now / ms, now % ms, step, now - ms * step, ms);
    }
  }

  function CodeFor(mac: Mac, step: int, digits: nat): string
  {
    Truncate(mac(CounterOctets(step)), digits)
  }

  /** Above the last step used, or the first use of the enrolment. */
  predicate Unused(step: int, lastUsedStep: Option<int>) { lastUsedStep.Some? ==> step > lastUsedStep.value }

  /** What a step has to be for `code` to be accepted as its code. */
  ghost predicate Admits(mac: Mac, s: Settings, code: string, now: int, lastUsedStep: Option<int>, step: int)
    requires ValidSettings(s)
  {
    var current := StepAt(now, s.period);
    current - s.window <= step <= current + s.window && Unused(step, lastUsedStep)
      && CodeFor(mac, step, s.digits) == code
  }

  /** The answer, as a search upwards through the window. */
  function Accepted(mac: Mac, s: Settings, code: string, now: int, lastUsedStep: Option<int>): Option<int>
    requires ValidSettings(s)
  {
    var current := StepAt(now, s.period);
    Search(mac, s.digits, code, lastUsedStep, current - s.window, current + s.window)
  }

  function Search(mac: Mac, digits: nat, code: string, lastUsedStep: Option<int>, lo: int, hi: int): Option<int>
    decreases hi - lo
  {
    if lo > hi then None
    else if Unused(lo, lastUsedStep) && CodeFor(mac, lo, digits) == code then Some(lo)
    else Search(mac, digits, code, lastUsedStep, lo + 1, hi)
  }

  /** `r` is the least step of `[lo, hi]` that is unused and has this code, if there is one. */
  ghost predicate LeastIn(r: Option<int>, mac: Mac, digits: nat, code: string, last: Option<int>, lo: int, hi: int) {
    && (r.Some? ==> lo <= r.value <= hi && Unused(r.value, last) && CodeFor(mac, r.value, digits) == code)
    && (forall s :: lo <= s <= hi && Unused(s, last) && CodeFor(mac, s, digits) == code ==> r.Some? && r.value <= s)
  }

  lemma {:induction false} SearchIsLeast(mac: Mac, digits: nat, code: string, last: Option<int>, lo: int, hi: int)
    ensures LeastIn(Search(mac, digits, code, last, lo, hi), mac, digits, code, last, lo, hi)
    decreases hi - lo
  {
    hide CodeFor;
    if lo <= hi && !(Unused(lo, last) && CodeFor(mac, lo, digits) == code) {
      SearchIsLeast(mac, digits, code, last, lo + 1, hi);
    }
  }

  /** RFC 6238 section 5.2: the answer is the least unused step of the window whose code this is. */
  lemma AcceptedIsLeast(mac: Mac, s: Settings, code: string, now: int, last: Option<int>, step: int)
    requires ValidSettings(s)
    ensures Accepted(mac, s, code, now, last) == Some(step)
       <==> Admits(mac, s, code, now, last, step) && forall t :: Admits(mac, s, code, now, last, t) ==> step <= t
  {
    hide Search, CodeFor, StepAt;
    var current := StepAt(now, s.period);
    SearchIsLeast(mac, s.digits, code, last, current - s.window, current + s.window);
    var r := Accepted(mac, s, code, now, last);
    if r.Some? {
      assert Admits(mac, s, code, now, last, r.value);
    }
  }

  method ComputeCode(mac: Mac, step: int, digits: nat) returns (code: string)
    ensures code == CodeFor(mac, step, digits)
  {
    hide CounterOctets, Truncate;
    var bytes := CounterBytes(step);
    return Truncate(mac(bytes[..]), digits);
  }

  /** The candidate list, the code of each, and the earliest match. */
  method Verify(mac: Mac, s: Settings, code: string, now: int, lastUsedStep: Option<int>)
    returns (r: Option<int>)
    requires ValidSettings(s)
    ensures r == Accepted(mac, s, code, now, lastUsedStep)
  {
    hide Search, CodeFor, StepAt;
    var current := StepAt(now, s.period);
    var candidates: seq<int> := [];
    var delta := -s.window;
    while delta <= s.window
      invariant -s.window <= delta && (delta <= s.window + 1 || delta == -s.window)
      invariant Increasing(candidates) && Within(candidates, current - s.window, current + delta - 1)
      invariant forall t :: current - s.window <= t < current + delta ==> (t in candidates <==> Unused(t, lastUsedStep))
    {
      var step := current + delta;
      if lastUsedStep.None? || step > lastUsedStep.value {
        candidates := candidates + [step];
      }
      delta := delta + 1;
    }
    SearchIsLeast(mac, s.digits, code, lastUsedStep, current - s.window, current + s.window);
    if candidates == [] || |code| != s.digits {
      NoCandidate(mac, s, code, now, lastUsedStep, candidates);
      return None;
    }

    var codes := [];
    for index := 0 to |candidates|
      invariant |codes| == index && forall i :: 0 <= i < index ==> codes[i] == CodeFor(mac, candidates[i], s.digits)
    {
      var next := ComputeCode(mac, candidates[index], s.digits);
      codes := codes + [next];
    }
    var matched: Option<int> := None;
    for index := 0 to |codes|
      invariant matched.None? ==> forall i :: 0 <= i < index ==> codes[i] != code
      invariant matched.Some? ==> FirstMatch(codes, code, candidates, matched.value)
    {
      var equal := EqualCodes(code, codes[index]);
      if equal && matched.None? {
        matched := Some(candidates[index]);
      }
    }
    assert LeastIn(matched, mac, s.digits, code, lastUsedStep, current - s.window, current + s.window);
    return matched;
  }

  predicate Increasing(run: seq<int>) { forall i, j :: 0 <= i < j < |run| ==> run[i] < run[j] }

  predicate Within(run: seq<int>, lo: int, hi: int) { forall i :: 0 <= i < |run| ==> lo <= run[i] <= hi }

  ghost predicate FirstMatch(codes: seq<string>, code: string, candidates: seq<int>, step: int)
    requires |codes| == |candidates|
  {
    exists i :: 0 <= i < |codes| && step == candidates[i] && codes[i] == code
                && forall j :: 0 <= j < i ==> codes[j] != code
  }

  lemma CodeLength(mac: Mac, step: int, digits: nat)
    requires digits >= 1
    ensures |CodeFor(mac, step, digits)| == digits
  {
    hide Truncate;
    TruncateDenotes(mac(CounterOctets(step)), digits);
  }

  lemma NoCandidate(mac: Mac, s: Settings, code: string, now: int, last: Option<int>, candidates: seq<int>)
    requires ValidSettings(s)
    requires candidates == [] || |code| != s.digits
    requires var current := StepAt(now, s.period);
             forall t :: current - s.window <= t <= current + s.window ==> (t in candidates <==> Unused(t, last))
    ensures Accepted(mac, s, code, now, last) == None
  {
    hide Search, StepAt, CodeFor;
    var current := StepAt(now, s.period);
    SearchIsLeast(mac, s.digits, code, last, current - s.window, current + s.window);
    var r := Accepted(mac, s, code, now, last);
    if r.Some? {
      CodeLength(mac, r.value, s.digits);
    }
  }

  // ---------------------------------------------------------------------------
  // Runs of attempts
  // ---------------------------------------------------------------------------

  datatype Attempt = Attempt(code: string, at: int)

  /** The steps accepted over a run in which each accepted step is stored for the next attempt. */
  function AcceptedRun(mac: Mac, s: Settings, last: Option<int>, attempts: seq<Attempt>): seq<int>
    requires ValidSettings(s)
    decreases |attempts|
  {
    if attempts == [] then []
    else match Accepted(mac, s, attempts[0].code, attempts[0].at, last)
      case None => AcceptedRun(mac, s, last, attempts[1..])
      case Some(step) => [step] + AcceptedRun(mac, s, Some(step), attempts[1..])
  }

  lemma AcceptedBounds(mac: Mac, s: Settings, a: Attempt, last: Option<int>)
    requires ValidSettings(s)
    ensures Accepted(mac, s, a.code, a.at, last).Some? ==>
              var step := Accepted(mac, s, a.code, a.at, last).value;
              Unused(step, last) && StepAt(a.at, s.period) - s.window <= step <= StepAt(a.at, s.period) + s.window
  {
    hide CodeFor, Search, StepAt;
    SearchIsLeast(mac, s.digits, a.code, last, StepAt(a.at, s.period) - s.window, StepAt(a.at, s.period) + s.window);
  }

  predicate AllUnused(run: seq<int>, last: Option<int>) { forall i :: 0 <= i < |run| ==> Unused(run[i], last) }

  /** The replay rule: over any run, accepted steps strictly increase, above the one stored before it. */
  lemma {:induction false} ReplayRule(mac: Mac, s: Settings, last: Option<int>, attempts: seq<Attempt>)
    requires ValidSettings(s)
    ensures AllUnused(AcceptedRun(mac, s, last, attempts), last) && Increasing(AcceptedRun(mac, s, last, attempts))
    decreases |attempts|
  {
    hide Accepted;
    if attempts != [] {
      AcceptedBounds(mac, s, attempts[0], last);
      var first := Accepted(mac, s, attempts[0].code, attempts[0].at, last);
      ReplayRule(mac, s, if first.Some? then first else last, attempts[1..]);
    }
  }

  lemma {:induction false} RunInWindow(mac: Mac, s: Settings, last: Option<int>, attempts: seq<Attempt>, t1: int,
                                       t2: int)
    requires ValidSettings(s)
    requires forall i :: 0 <= i < |attempts| ==> t1 <= attempts[i].at <= t2
    ensures Within(AcceptedRun(mac, s, last, attempts), StepAt(t1, s.period) - s.window,
                   StepAt(t2, s.period) + s.window)
    decreases |attempts|
  {
    hide Accepted, StepAt;
    if attempts != [] {
      AcceptedBounds(mac, s, attempts[0], last);
      StepAtMonotone(t1, attempts[0].at, s.period);
      StepAtMonotone(attempts[0].at, t2, s.period);
      var first := Accepted(mac, s, attempts[0].code, attempts[0].at, last);
      RunInWindow(mac, s, if first.Some? then first else last, attempts[1..], t1, t2);
    }
  }

  lemma StepAtMonotone(t1: int, t2: int, period: nat)
    requires period > 0 && t1 <= t2
    ensures StepAt(t1, period) <= StepAt(t2, period)
  {
    QuotientMonotone(t1, t2, 1000 * period);
  }

  /** Between two moments, however many attempts are made, acceptances are bounded by the steps elapsed. */
  lemma AcceptanceRate(mac: Mac, s: Settings, last: Option<int>, attempts: seq<Attempt>, t1: int, t2: int)
    requires ValidSettings(s) && s.window >= 0 && t1 <= t2
    requires forall i :: 0 <= i < |attempts| ==> t1 <= attempts[i].at <= t2
    ensures |AcceptedRun(mac, s, last, attempts)| <= StepAt(t2, s.period) - StepAt(t1, s.period) + 2 * s.window + 1
  {
    hide AcceptedRun, StepAt;
    ReplayRule(mac, s, last, attempts);
    RunInWindow(mac, s, last, attempts, t1, t2);
    StepAtMonotone(t1, t2, s.period);
    IncreasingFits(AcceptedRun(mac, s, last, attempts), StepAt(t1, s.period) - s.window,
                   StepAt(t2, s.period) + s.window);
  }

  lemma {:induction false} IncreasingFits(run: seq<int>, lo: int, hi: int)
    requires lo <= hi + 1 && Within(run, lo, hi) && Increasing(run)
    ensures |run| <= hi - lo + 1
    decreases |run|
  {
    if run != [] {
      var n := |run| - 1;
      IncreasingFits(run[..n], lo, run[n] - 1);
    }
  }
}
