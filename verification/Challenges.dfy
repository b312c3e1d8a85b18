/**
  Short codes: a code is answered by claiming its row, comparing, and writing the
  row back under the same handle with one attempt fewer. The three are separate
  steps of a fibre, so the guarantees are proved over every interleaving of any
  number of fibres with issuances, retirements, other claims and sweeps.
 */
module Challenges {
  import opened Prelude
  import opened Texts
  import opened Platform
  import opened Verifications

  // ---------------------------------------------------------------------------
  // The code and its tag
  // ---------------------------------------------------------------------------

  const CODE_HASH_CONTEXT := "effect-auth/challenge-code/v1\n"

  function SignedBytes(h: Host, identifier: string, code: string): seq<byte> {
    h.utf8(CODE_HASH_CONTEXT + code + "\n" + identifier)
  }

  function CodeHash(h: Host, identifier: string, code: string): Mac { Hmac(SignedBytes(h, identifier, code)) }

  predicate CodeMatches(h: Host, identifier: string, code: string, stored: Mac) {
    stored == CodeHash(h, identifier, code)
  }

  /** A tag answers to one code on its own row, and for codes of one line to no code of any other row. */
  lemma CodeHashBinds(h: Host, i: string, c: string, j: string, d: string)
    requires Lawful(h)
    requires i == j || ('\n' !in c && '\n' !in d)
    ensures CodeMatches(h, j, d, CodeHash(h, i, c)) <==> i == j && c == d
  {
    var a, b := CODE_HASH_CONTEXT + c + "\n" + i, CODE_HASH_CONTEXT + d + "\n" + j;
    if SignedBytes(h, i, c) == SignedBytes(h, j, d) {
      assert h.fromUtf8(h.utf8(a)) == Some(a) && h.fromUtf8(h.utf8(b)) == Some(b);
      var n := |CODE_HASH_CONTEXT|;
      assert a[n..] == c + ['\n'] + i && b[n..] == d + ['\n'] + j;
      LinesApart(c, i, d, j);
    }
  }

  lemma LinesApart(c: string, i: string, d: string, j: string)
    requires c + ['\n'] + i == d + ['\n'] + j
    requires i == j || ('\n' !in c && '\n' !in d)
    ensures c == d && i == j
  {
    var line := c + ['\n'] + i;
    if '\n' !in c && '\n' !in d {
      IndexOfSeparator(c, '\n', i);
      IndexOfSeparator(d, '\n', j);
      assert i == line[|c| + 1..] && j == line[|d| + 1..];
    }
    assert c == line[..|c|] && d == line[..|d|];
  }

  function RowPurpose(name: string): Purpose { Purpose(CodeNamespace(name), ChallengeRow) }

  /** `DateTime.distance`: `signed` says whether the platform's durations can be negative. */
  function Distance(signed: bool, start: int, end: int): int {
    if signed || start <= end then end - start else 0
  }

  /** The row a wrong guess writes back: what is left of the lifetime at `readAt`, counted again from `writeAt`. */
  function Restored(signed: bool, row: Row, readAt: int, writeAt: int): Row {
    row.(expiresAt := writeAt + Distance(signed, readAt, row.expiresAt))
  }

  /**
    A restore moves the expiry by the gap between its clock reads, and never revives a row that
    had expired at the first.
   */
  lemma RestoredExpiry(signed: bool, row: Row, readAt: int, writeAt: int)
    requires readAt <= writeAt
    ensures var r := Restored(signed, row, readAt, writeAt);
            && (signed || readAt <= row.expiresAt ==> r.expiresAt == row.expiresAt + (writeAt - readAt))
            && (!signed && row.expiresAt < readAt ==> r.expiresAt == writeAt)
            && (readAt <= row.expiresAt ==> (r.expiresAt == row.expiresAt <==> readAt == writeAt))
            && (row.expiresAt <= readAt <==> r.expiresAt <= writeAt)
  {
  }

  // ---------------------------------------------------------------------------
  // The machine
  // ---------------------------------------------------------------------------

  datatype Outcome = Answered(code: string, identifier: string) | Refused | Faulted

  /** One `verifyCode` call, by what it still has to do. */
  datatype Fibre =
    | Comparing(secret: string, row: Row, code: string)
    | Owing(secret: string, row: Row, broken: bool)
    | Timed(secret: string, row: Row, broken: bool, readAt: int)
    | Stamped(secret: string, row: Row, broken: bool)
    | Done(secret: string, outcome: Outcome)

  /** What was issued under one handle, and what its comparisons have come to. */
  datatype Entry = Entry(identifier: string, code: string, attempts: int, payload: Column, expiresAt: int,
                         wrong: nat, right: nat, drift: nat)

  datatype State = State(now: int, rows: seq<Row>, fibres: map<nat, Fibre>, minted: set<string>,
                         ledger: map<string, Entry>, signed: bool)

  datatype Step =
    | Tick(elapsed: nat)
    | Issue(secret: string, identifier: string, payload: Column, expiresAt: int)
    | IssueCode(secret: string, identifier: string, code: string, attempts: int, payload: Column, expiresAt: int)
    | Retire(identifier: string)
    | DeleteExpired(at: int)
    | ClaimElsewhere(identifier: string, secret: string, at: int)
    | Claim(f: nat, identifier: string, secret: string, code: string, at: int)
    | Compare(f: nat, purpose: Purpose, broken: bool)
    | ReadClock(f: nat)
    | Stamp(f: nat)
    | WriteBack(f: nat)
    | Interrupt(f: nat)

  predicate Live(s: State, f: nat) { f in s.fibres && !s.fibres[f].Done? }

  predicate Holds(s: State, f: nat, secret: string) { Live(s, f) && s.fibres[f].secret == secret }

  predicate Stored(s: State, secret: string) { exists r :: r in s.rows && r.valueHash == Sha256(secret) }

  function ChallengeRowOf(h: Host, secret: string, e: Entry): Row {
    Row(e.identifier, Sha256(secret), Code(CodeHash(h, e.identifier, e.code), e.attempts - e.wrong, e.payload),
        e.expiresAt + e.drift)
  }

  function Judged(ledger: map<string, Entry>, secret: string, matched: bool): map<string, Entry> {
    if secret !in ledger then ledger
    else
      var e := ledger[secret];
      ledger[secret := if matched then e.(right := e.right + 1) else e.(wrong := e.wrong + 1)]
  }

  function Drifted(ledger: map<string, Entry>, secret: string, gap: int): map<string, Entry> {
    if secret !in ledger || gap < 0 then ledger
    else ledger[secret := ledger[secret].(drift := ledger[secret].drift + gap)]
  }

  /** What a comparison leaves the fibre with. */
  function AfterCompare(h: Host, fibre: Fibre, purpose: Purpose, broken: bool): Fibre
    requires fibre.Comparing? && fibre.row.payload.Code?
  {
    var row := fibre.row;
    var left := row.payload.attemptsLeft;
    if broken then Owing(fibre.secret, row, true)
    else if CodeMatches(h, row.identifier, fibre.code, row.payload.codeHash) then
      Done(fibre.secret,
           if Decodes(purpose, row.payload.payload) then Answered(fibre.code, row.identifier) else Refused)
    else if left > 1 then Owing(fibre.secret, row.(payload := row.payload.(attemptsLeft := left - 1)), false)
    else Done(fibre.secret, Refused)
  }

  function Apply(h: Host, s: State, step: Step): State {
    match step
    case Tick(elapsed) => s.(now := s.now + elapsed)
    case Issue(secret, identifier, payload, expiresAt) =>
      if secret in s.minted then s
      else s.(minted := s.minted + {secret}, rows := s.rows + [Row(identifier, Sha256(secret), payload, expiresAt)])
    case IssueCode(secret, identifier, code, attempts, payload, expiresAt) =>
      if secret in s.minted || attempts < 1 then s
      else
        var e := Entry(identifier, code, attempts, payload, expiresAt, 0, 0, 0);
        s.(minted := s.minted + {secret}, rows := s.rows + [ChallengeRowOf(h, secret, e)],
           ledger := s.ledger[secret := e])
    case Retire(identifier) => s.(rows := Delete(s.rows, ByIdentifier(identifier)))
    case DeleteExpired(at) => s.(rows := Delete(s.rows, Expired(at)))
    case ClaimElsewhere(identifier, secret, at) => s.(rows := Delete(s.rows, Claimable(identifier, Sha256(secret), at)))
    case Claim(f, identifier, secret, code, at) =>
      if f in s.fibres then s
      else
        var g := Claimable(identifier, Sha256(secret), at);
        var fibre := match FirstMatch(s.rows, g)
                     case Some(row) => if row.payload.Code? then Comparing(secret, row, code) else Done(secret, Refused)
                     case None => Done(secret, Refused);
        s.(rows := Delete(s.rows, g), fibres := s.fibres[f := fibre])
    case Compare(f, purpose, broken) =>
      if !(f in s.fibres && s.fibres[f].Comparing? && s.fibres[f].row.payload.Code?) then s
      else
        var fibre := s.fibres[f];
        var matched := CodeMatches(h, fibre.row.identifier, fibre.code, fibre.row.payload.codeHash);
        s.(fibres := s.fibres[f := AfterCompare(h, fibre, purpose, broken)],
           ledger := if broken then s.ledger else Judged(s.ledger, fibre.secret, matched))
    case ReadClock(f) =>
      if !(f in s.fibres && s.fibres[f].Owing?) then s
      else s.(fibres := s.fibres[f := Timed(s.fibres[f].secret, s.fibres[f].row, s.fibres[f].broken, s.now)])
    case Stamp(f) =>
      if !(f in s.fibres && s.fibres[f].Timed?) then s
      else
        var fibre := s.fibres[f];
        s.(fibres := s.fibres[f := Stamped(fibre.secret, Restored(s.signed, fibre.row, fibre.readAt, s.now),
                                           fibre.broken)],
           ledger := Drifted(s.ledger, fibre.secret, s.now - fibre.readAt))
    case WriteBack(f) =>
      if !(f in s.fibres && s.fibres[f].Stamped?) then s
      else s.(rows := s.rows + [s.fibres[f].row], 
              fibres := s.fibres[f := Done(s.fibres[f].secret, if s.fibres[f].broken then Faulted else Refused)])
    case Interrupt(f) =>
      if !Live(s, f) then s else s.(fibres := s.fibres[f := Done(s.fibres[f].secret, Faulted)])
  }

  function Run(h: Host, s: State, steps: seq<Step>): State
    decreases |steps|
  {
    if steps == [] then s else Run(h, Apply(h, s, steps[0]), steps[1..])
  }

  function Initial(now: int, signed: bool): State { State(now, [], map[], {}, map[], signed) }

  // ---------------------------------------------------------------------------
  // The invariant
  // ---------------------------------------------------------------------------

  /** A row that backs a handle is the row the ledger predicts, with its exact expiry unless it has expired. */
  predicate Backs(h: Host, ledger: map<string, Entry>, row: Row, secret: string, now: int) {
    row.valueHash == Sha256(secret) &&
    (secret in ledger ==>
      var e := ledger[secret];
      && row == ChallengeRowOf(h, secret, e).(expiresAt := row.expiresAt)
      && (row.expiresAt == e.expiresAt + e.drift || row.expiresAt <= now)
      && e.wrong < e.attempts && e.right == 0)
  }

  predicate DistinctHashes(rows: seq<Row>) {
    forall i, j :: 0 <= i < j < |rows| ==> rows[i].valueHash != rows[j].valueHash
  }

  ghost predicate RowsGood(h: Host, s: State) {
    && DistinctHashes(s.rows)
    && (forall r :: r in s.rows ==>
        r.valueHash.preimage in s.minted && Backs(h, s.ledger, r, r.valueHash.preimage, s.now))
  }

  ghost predicate FibresGood(h: Host, s: State) {
    && (forall f :: Live(s, f) ==> FibreGood(h, s, s.fibres[f]))
    && (forall f, g :: Live(s, f) && Live(s, g) && s.fibres[f].secret == s.fibres[g].secret ==> f == g)
  }

  ghost predicate FibreGood(h: Host, s: State, fibre: Fibre)
    requires !fibre.Done?
  {
    && fibre.secret in s.minted
    && FibreBacks(h, s, fibre)
    && forall r :: r in s.rows ==> r.valueHash != Sha256(fibre.secret)
  }

  /** A fibre that has read the clock keeps the expiry judged against that reading. */
  predicate FibreBacks(h: Host, s: State, fibre: Fibre)
    requires !fibre.Done?
  {
    if fibre.Timed? then fibre.readAt <= s.now && Backs(h, s.ledger, fibre.row, fibre.secret, fibre.readAt)
    else Backs(h, s.ledger, fibre.row, fibre.secret, s.now)
  }

  predicate EntryGood(e: Entry) { e.wrong + e.right <= e.attempts && e.right <= 1 }

  ghost predicate LedgerGood(s: State) {
    && s.ledger.Keys <= s.minted
    && forall k :: k in s.ledger ==> EntryGood(s.ledger[k])
  }

  predicate Succeeded(s: State, f: nat) { f in s.fibres && s.fibres[f].Done? && s.fibres[f].outcome.Answered? }

  ghost predicate AnswersGood(s: State) {
    && (forall f :: Succeeded(s, f) ==> s.fibres[f].secret in s.minted)
    && (forall f :: Succeeded(s, f) && s.fibres[f].secret in s.ledger ==>
        AnswerGood(s.fibres[f].outcome, s.ledger[s.fibres[f].secret]))
    && (forall f, g | Succeeded(s, f) && Succeeded(s, g) ::
          s.fibres[f].secret == s.fibres[g].secret && s.fibres[f].secret in s.ledger ==> f == g)
  }

  predicate AnswerGood(outcome: Outcome, e: Entry)
    requires outcome.Answered?
  {
    e.right == 1 && outcome == Answered(e.code, e.identifier)
  }

  ghost predicate Inv(h: Host, s: State) {
    RowsGood(h, s) && FibresGood(h, s) && LedgerGood(s) && AnswersGood(s)
  }

  // ---------------------------------------------------------------------------
  // Every step keeps it
  // ---------------------------------------------------------------------------

  lemma {:induction false} DistinctDelete(rows: seq<Row>, g: Guard)
    requires DistinctHashes(rows)
    ensures DistinctHashes(Delete(rows, g))
  {
    if rows != [] {
      DistinctDelete(rows[1..], g);
      var rest := Delete(rows[1..], g);
      forall r | r in rest ensures r.valueHash != rows[0].valueHash {
        var i :| 0 <= i < |rows[1..]| && rows[1..][i] == r;
        assert rows[i + 1] == r;
      }
    }
  }

  lemma DistinctRow(rows: seq<Row>, r: Row, q: Row)
    requires DistinctHashes(rows) && r in rows && q in rows && r.valueHash == q.valueHash
    ensures r == q
  {
    var i :| 0 <= i < |rows| && rows[i] == r;
    var j :| 0 <= j < |rows| && rows[j] == q;
  }

  lemma KeepsUnderDelete(h: Host, s: State, g: Guard)
    requires Inv(h, s)
    ensures Inv(h, s.(rows := Delete(s.rows, g)))
  {
    DistinctDelete(s.rows, g);
    var t := s.(rows := Delete(s.rows, g));
    assert forall f :: Live(t, f) <==> Live(s, f);
    assert forall f :: Succeeded(t, f) <==> Succeeded(s, f);
  }

  lemma KeepsOnTick(h: Host, s: State, elapsed: nat)
    requires Inv(h, s)
    ensures Inv(h, s.(now := s.now + elapsed))
  {
    hide ChallengeRowOf, CodeHash;
    var t := s.(now := s.now + elapsed);
    assert forall f :: (Live(t, f) <==> Live(s, f)) && (Succeeded(t, f) <==> Succeeded(s, f));
  }

  /** A row whose handle is nowhere yet can be added, with its ledger entry if it has one. */
  lemma KeepsUnderAppend(h: Host, s: State, t: State, r: Row)
    requires Inv(h, s) && t.rows == s.rows + [r] && t.fibres == s.fibres && t.now == s.now && s.minted <= t.minted
    requires LedgerGood(t) && r.valueHash.preimage in t.minted
    requires Backs(h, t.ledger, r, r.valueHash.preimage, t.now)
    requires forall j :: j in s.minted ==>
               (j in t.ledger <==> j in s.ledger) && (j in s.ledger ==> t.ledger[j] == s.ledger[j])
    requires !Stored(s, r.valueHash.preimage) && forall f :: !Holds(s, f, r.valueHash.preimage)
    ensures Inv(h, t)
  {
    hide ChallengeRowOf, CodeHash, LedgerGood;
    assert r.valueHash == Sha256(r.valueHash.preimage);
    assert forall f :: (Live(t, f) <==> Live(s, f)) && (Succeeded(t, f) <==> Succeeded(s, f));
    assert DistinctHashes(t.rows) by {
      forall i | 0 <= i < |s.rows| ensures s.rows[i].valueHash != r.valueHash {
        assert s.rows[i] in s.rows;
      }
    }
    forall q | q in t.rows
      ensures q.valueHash.preimage in t.minted && Backs(h, t.ledger, q, q.valueHash.preimage, t.now) {
      if q != r {
        assert q in s.rows && Backs(h, s.ledger, q, q.valueHash.preimage, s.now);
      }
    }
    forall f | Live(s, f) ensures FibreGood(h, t, t.fibres[f]) {
      assert FibreGood(h, s, s.fibres[f]) && !Holds(s, f, r.valueHash.preimage);
      assert t.fibres[f] == s.fibres[f];
    }
  }

  lemma KeepsOnIssue(h: Host, s: State, step: Step)
    requires Inv(h, s) && (step.Issue? || step.IssueCode?)
    ensures Inv(h, Apply(h, s, step))
  {
    hide CodeHash, Delete, FirstMatch;
    var t := Apply(h, s, step);
    if t != s {
      forall f | Live(s, f) ensures !Holds(s, f, step.secret) {
        assert FibreGood(h, s, s.fibres[f]);
      }
      KeepsUnderAppend(h, s, t, t.rows[|s.rows|]);
    }
  }

  lemma KeepsOnClaim(h: Host, s: State, step: Step)
    requires Inv(h, s) && step.Claim?
    ensures Inv(h, Apply(h, s, step))
  {
    hide ChallengeRowOf, CodeHash;
    var t := Apply(h, s, step);
    if step.f !in s.fibres {
      var g := Claimable(step.identifier, Sha256(step.secret), step.at);
      KeepsUnderDelete(h, s, g);
      if FirstMatch(s.rows, g).Some? {
        var row := FirstMatch(s.rows, g).value;
        forall r | r in t.rows ensures r.valueHash != Sha256(step.secret) {
          if r.valueHash == Sha256(step.secret) {
            DistinctRow(s.rows, r, row);
          }
        }
      }
      NewFibre(h, s.(rows := Delete(s.rows, g)), t, step.f);
    }
  }

  /** A fibre that starts out good leaves every other fibre as it was. */
  lemma NewFibre(h: Host, s: State, t: State, f: nat)
    requires Inv(h, s) && f !in s.fibres && f in t.fibres
    requires t == s.(fibres := s.fibres[f := t.fibres[f]])
    requires !t.fibres[f].Done? ==>
               FibreGood(h, t, t.fibres[f]) && forall g :: Live(s, g) ==> s.fibres[g].secret != t.fibres[f].secret
    requires !Succeeded(t, f)
    ensures Inv(h, t)
  {
    hide ChallengeRowOf, CodeHash, DistinctHashes;
    assert forall g :: g != f ==> (Live(t, g) <==> Live(s, g));
    assert forall g :: Succeeded(t, g) <==> Succeeded(s, g);
    assert forall g :: Live(s, g) ==> FibreGood(h, t, s.fibres[g]);
  }

  /** What `f` does to its own handle's entry cannot disturb a row or a fibre of any other handle. */
  lemma OwnHandle(h: Host, s: State, t: State, f: nat, k: string)
    requires Inv(h, s) && Holds(s, f, k)
    requires t.now == s.now && t.minted == s.minted && t.rows == s.rows
    requires f in t.fibres && t.fibres == s.fibres[f := t.fibres[f]] && t.fibres[f].secret == k
    requires t.ledger.Keys == s.ledger.Keys && forall j :: j in s.ledger && j != k ==> t.ledger[j] == s.ledger[j]
    requires k in t.ledger ==> EntryGood(t.ledger[k])
    requires !t.fibres[f].Done? ==> FibreBacks(h, t, t.fibres[f])
    requires Succeeded(t, f) && k in t.ledger ==> AnswerGood(t.fibres[f].outcome, t.ledger[k])
    ensures Inv(h, t)
  {
    hide ChallengeRowOf, CodeHash, DistinctHashes;
    assert FibreGood(h, s, s.fibres[f]);
    assert forall g :: g != f ==> (Live(t, g) <==> Live(s, g)) && (Succeeded(t, g) <==> Succeeded(s, g));
    forall r | r in s.rows ensures Backs(h, t.ledger, r, r.valueHash.preimage, t.now) {
      assert Backs(h, s.ledger, r, r.valueHash.preimage, s.now) && r.valueHash.preimage != k;
    }
    forall g | Live(s, g) && g != f ensures FibreGood(h, t, s.fibres[g]) {
      assert FibreGood(h, s, s.fibres[g]) && s.fibres[g].secret != k;
    }
    forall g | Succeeded(s, g) && s.fibres[g].secret in s.ledger ensures s.fibres[g].secret != k {
      assert AnswerGood(s.fibres[g].outcome, s.ledger[s.fibres[g].secret]);
    }
  }

  lemma KeepsOnCompare(h: Host, s: State, step: Step)
    requires Lawful(h) && Inv(h, s) && step.Compare?
    ensures Inv(h, Apply(h, s, step))
  {
    hide Delete, FirstMatch;
    if Live(s, step.f) && s.fibres[step.f].Comparing? && s.fibres[step.f].row.payload.Code? {
      var fibre := s.fibres[step.f];
      assert FibreGood(h, s, fibre);
      if fibre.secret in s.ledger {
        var e := s.ledger[fibre.secret];
        CodeHashBinds(h, e.identifier, e.code, e.identifier, fibre.code);
      }
      OwnHandle(h, s, Apply(h, s, step), step.f, fibre.secret);
    }
  }

  lemma KeepsOnClock(h: Host, s: State, step: Step)
    requires Inv(h, s) && (step.ReadClock? || step.Stamp? || step.Interrupt?)
    ensures Inv(h, Apply(h, s, step))
  {
    hide CodeHash, Delete, FirstMatch;
    if Live(s, step.f) {
      var fibre := s.fibres[step.f];
      assert FibreGood(h, s, fibre);
      OwnHandle(h, s, Apply(h, s, step), step.f, fibre.secret);
    }
  }

  lemma KeepsOnWriteBack(h: Host, s: State, step: Step)
    requires Inv(h, s) && step.WriteBack?
    ensures Inv(h, Apply(h, s, step))
  {
    hide ChallengeRowOf, CodeHash, Delete, FirstMatch;
    if Live(s, step.f) && s.fibres[step.f].Stamped? {
      var fibre := s.fibres[step.f];
      assert FibreGood(h, s, fibre);
      var t := Apply(h, s, step);
      var u := t.(rows := s.rows);
      OwnHandle(h, s, u, step.f, fibre.secret);
      KeepsUnderAppend(h, u, t, fibre.row);
    }
  }

  lemma KeepsInv(h: Host, s: State, step: Step)
    requires Lawful(h) && Inv(h, s)
    ensures Inv(h, Apply(h, s, step))
  {
    match step
    case Tick(elapsed) => KeepsOnTick(h, s, elapsed);
    case Issue(_, _, _, _) => KeepsOnIssue(h, s, step);
    case IssueCode(_, _, _, _, _, _) => KeepsOnIssue(h, s, step);
    case Retire(i) => KeepsUnderDelete(h, s, ByIdentifier(i));
    case DeleteExpired(at) => KeepsUnderDelete(h, s, Expired(at));
    case ClaimElsewhere(i, k, at) => KeepsUnderDelete(h, s, Claimable(i, Sha256(k), at));
    case Claim(_, _, _, _, _) => KeepsOnClaim(h, s, step);
    case Compare(_, _, _) => KeepsOnCompare(h, s, step);
    case WriteBack(_) => KeepsOnWriteBack(h, s, step);
    case _ => KeepsOnClock(h, s, step);
  }

  lemma {:induction false} RunKeepsInv(h: Host, s: State, steps: seq<Step>)
    requires Lawful(h) && Inv(h, s)
    ensures Inv(h, Run(h, s, steps))
    decreases |steps|
  {
    if steps != [] {
      KeepsInv(h, s, steps[0]);
      RunKeepsInv(h, Apply(h, s, steps[0]), steps[1..]);
    }
  }

  // ---------------------------------------------------------------------------
  // Over every interleaving
  // ---------------------------------------------------------------------------

  /** A handle's row is in the store once, or with one fibre, or gone: never in two places. */
  ghost predicate InOnePlace(s: State, k: string) {
    && (forall i, j | 0 <= i < |s.rows| && 0 <= j < |s.rows| ::
          s.rows[i].valueHash == Sha256(k) && s.rows[j].valueHash == Sha256(k) ==> i == j)
    && (forall f, g :: Holds(s, f, k) && Holds(s, g, k) ==> f == g)
    && (forall f :: Holds(s, f, k) ==> !Stored(s, k))
  }

  lemma OnePlaceAlways(h: Host, now: int, signed: bool, steps: seq<Step>, k: string)
    requires Lawful(h)
    ensures InOnePlace(Run(h, Initial(now, signed), steps), k)
  {
    RunKeepsInv(h, Initial(now, signed), steps);
    var s := Run(h, Initial(now, signed), steps);
    forall f | Holds(s, f, k) ensures !Stored(s, k) {
      assert FibreGood(h, s, s.fibres[f]);
    }
  }

  /** Wrong guesses spent and the budget a row still carries always add up, on the row as on the fibre holding it. */
  ghost predicate Accounted(h: Host, s: State, k: string)
    requires k in s.ledger
  {
    var e := s.ledger[k];
    && e.wrong + e.right <= e.attempts && e.right <= 1
    && (forall r :: r in s.rows && r.valueHash == Sha256(k) ==> Carries(h, s, k, r))
    && (forall f :: Holds(s, f, k) ==> Carries(h, s, k, s.fibres[f].row))
  }

  predicate Carries(h: Host, s: State, k: string, r: Row)
    requires k in s.ledger
  {
    var e := s.ledger[k];
    && r.identifier == e.identifier
    && r.payload == Code(CodeHash(h, e.identifier, e.code), e.attempts - e.wrong, e.payload) && e.wrong < e.attempts
    && (r.expiresAt > s.now ==> r.expiresAt == e.expiresAt + e.drift)
  }

  lemma AlwaysAccounted(h: Host, now: int, signed: bool, steps: seq<Step>, k: string)
    requires Lawful(h) && k in Run(h, Initial(now, signed), steps).ledger
    ensures Accounted(h, Run(h, Initial(now, signed), steps), k)
  {
    hide CodeHash;
    RunKeepsInv(h, Initial(now, signed), steps);
    var s := Run(h, Initial(now, signed), steps);
    forall r | r in s.rows && r.valueHash == Sha256(k) ensures Carries(h, s, k, r) {
      assert Backs(h, s.ledger, r, r.valueHash.preimage, s.now);
    }
    forall f | Holds(s, f, k) ensures Carries(h, s, k, s.fibres[f].row) {
      assert FibreGood(h, s, s.fibres[f]);
    }
  }

  /** A step moves no call but the one it names. */
  lemma OthersWait(h: Host, s: State, step: Step, g: nat)
    requires g in s.fibres
    requires (step.Claim? || step.Compare? || step.ReadClock? || step.Stamp? || step.WriteBack? || step.Interrupt?) ==>
               step.f != g
    ensures var t := Apply(h, s, step); g in t.fibres && t.fibres[g] == s.fibres[g] && t.signed == s.signed
  {
    hide CodeHash;
  }

  /** At most one call on a handle succeeds, and it presented the code that was issued, to the row it was issued for. */
  lemma OneAnswer(h: Host, now: int, signed: bool, steps: seq<Step>, f: nat, g: nat)
    requires Lawful(h)
    requires var s := Run(h, Initial(now, signed), steps);
             && Succeeded(s, f) && Succeeded(s, g)
             && s.fibres[f].secret == s.fibres[g].secret && s.fibres[f].secret in s.ledger
    ensures var s := Run(h, Initial(now, signed), steps);
            var e := s.ledger[s.fibres[f].secret];
            && f == g && s.fibres[f].outcome == Answered(e.code, e.identifier)
            && e.right == 1 && e.wrong < e.attempts
  {
    hide Apply;
    RunKeepsInv(h, Initial(now, signed), steps);
    var s := Run(h, Initial(now, signed), steps);
    assert AnswerGood(s.fibres[f].outcome, s.ledger[s.fibres[f].secret]);
    assert EntryGood(s.ledger[s.fibres[f].secret]);
  }

  predicate Dead(s: State, k: string) { !Stored(s, k) && forall f :: f in s.fibres ==> !Holds(s, f, k) }

  lemma DeadStep(h: Host, s: State, step: Step, k: string)
    requires Lawful(h) && Inv(h, s) && k in s.minted && Dead(s, k)
    ensures k in Apply(h, s, step).minted && Dead(Apply(h, s, step), k)
  {
    hide CodeHash, ChallengeRowOf, DistinctHashes, AnswersGood;
    var t := Apply(h, s, step);
    if step.WriteBack? && Live(s, step.f) {
      assert FibreGood(h, s, s.fibres[step.f]);
    }
    if step.IssueCode? && step.secret !in s.minted && step.attempts >= 1 {
      IssuedRow(h, step);
    }
    forall f | f in t.fibres ensures !Holds(t, f, k) {
      assert f in s.fibres ==> !Holds(s, f, k);
    }
  }

  lemma IssuedRow(h: Host, step: Step)
    requires step.IssueCode?
    ensures ChallengeRowOf(h, step.secret,
                           Entry(step.identifier, step.code, step.attempts, step.payload, step.expiresAt, 0, 0, 0))
            .valueHash == Sha256(step.secret)
  {
  }

  lemma {:induction false} DeadStays(h: Host, s: State, steps: seq<Step>, k: string)
    requires Lawful(h) && Inv(h, s) && k in s.minted && Dead(s, k)
    ensures Dead(Run(h, s, steps), k)
    decreases |steps|
  {
    if steps != [] {
      KeepsInv(h, s, steps[0]);
      DeadStep(h, s, steps[0], k);
      DeadStays(h, Apply(h, s, steps[0]), steps[1..], k);
    }
  }

  /** After a right answer or the last wrong one, nothing that happens later makes the handle claimable again. */
  lemma SpentForever(h: Host, now: int, signed: bool, steps: seq<Step>, more: seq<Step>, k: string, claim: Step)
    requires Lawful(h)
    requires var s := Run(h, Initial(now, signed), steps);
             k in s.ledger && (s.ledger[k].right == 1 || s.ledger[k].wrong == s.ledger[k].attempts)
    requires claim.Claim? && claim.secret == k && claim.f !in Run(h, Run(h, Initial(now, signed), steps), more).fibres
    ensures var t := Run(h, Run(h, Initial(now, signed), steps), more);
            && Dead(t, k)
            && Apply(h, t, claim) == t.(fibres := t.fibres[claim.f := Done(k, Refused)])
  {
    var s := Run(h, Initial(now, signed), steps);
    RunKeepsInv(h, Initial(now, signed), steps);
    AlwaysAccounted(h, now, signed, steps, k);
    SpentIsDead(h, s, k);
    DeadStays(h, s, more, k);
    NothingToDelete(Run(h, s, more).rows, Claimable(claim.identifier, Sha256(k), claim.at));
  }

  lemma SpentIsDead(h: Host, s: State, k: string)
    requires Inv(h, s) && k in s.ledger
    requires s.ledger[k].right == 1 || s.ledger[k].wrong == s.ledger[k].attempts
    ensures k in s.minted && Dead(s, k)
  {
    hide CodeHash, ChallengeRowOf;
    forall r | r in s.rows ensures r.valueHash != Sha256(k) {
      assert Backs(h, s.ledger, r, r.valueHash.preimage, s.now);
    }
    forall f | f in s.fibres ensures !Holds(s, f, k) {
      assert Live(s, f) ==> FibreGood(h, s, s.fibres[f]);
    }
  }

  /** The time between the two clock reads of every restore of one handle, summed over a run. */
  function Gaps(h: Host, s: State, steps: seq<Step>, k: string): int
    decreases |steps|
  {
    if steps == [] then 0
    else
      var gap := if steps[0].Stamp? && Holds(s, steps[0].f, k) && s.fibres[steps[0].f].Timed?
                 then s.now - s.fibres[steps[0].f].readAt else 0;
      gap + Gaps(h, Apply(h, s, steps[0]), steps[1..], k)
  }

  /** What was issued never changes, spending only grows, and the expiry drifts by exactly the gaps. */
  lemma {:induction false} DriftIsTheGaps(h: Host, s: State, steps: seq<Step>, k: string)
    requires Lawful(h) && Inv(h, s) && k in s.ledger
    ensures k in Run(h, s, steps).ledger
    ensures var e, end := s.ledger[k], Run(h, s, steps).ledger[k];
            && end == e.(wrong := end.wrong, right := end.right, drift := end.drift)
            && e.wrong <= end.wrong && e.right <= end.right
            && end.drift == e.drift + Gaps(h, s, steps, k)
    decreases |steps|
  {
    if steps != [] {
      var t := Apply(h, s, steps[0]);
      DriftStep(h, s, steps[0], k);
      KeepsInv(h, s, steps[0]);
      DriftIsTheGaps(h, t, steps[1..], k);
    }
  }

  lemma DriftStep(h: Host, s: State, step: Step, k: string)
    requires Lawful(h) && Inv(h, s) && k in s.ledger
    ensures k in Apply(h, s, step).ledger
    ensures var e, end := s.ledger[k], Apply(h, s, step).ledger[k];
            && end == e.(wrong := end.wrong, right := end.right, drift := end.drift)
            && e.wrong <= end.wrong && e.right <= end.right
            && end.drift == e.drift + Gaps(h, s, [step], k)
  {
    hide CodeHash, ChallengeRowOf, DistinctHashes, AnswersGood;
    if step.Stamp? && Live(s, step.f) {
      assert FibreGood(h, s, s.fibres[step.f]);
    }
  }

  // ---------------------------------------------------------------------------
  // The service, call by call
  // ---------------------------------------------------------------------------

  /** What one call presents, and what its three clock reads answer. */
  datatype Guess = Guess(code: string, broken: bool, claimAt: int, readAt: int, writeAt: int)

  /** `payload` is the one the challenge was issued with. */
  datatype Reply = Accepted(claimed: Claimed, payload: Column) | InvalidCode | Fault

  function Spend(row: Row): Row
    requires row.payload.Code?
  {
    row.(payload := row.payload.(attemptsLeft := row.payload.attemptsLeft - 1))
  }

  function ReplyTo(h: Host, rows: seq<Row>, p: Purpose, handle: string, g: Guess): Reply {
    match ClaimAnswer(h, rows, RowPurpose(p.name), handle, g.claimAt)
    case None => InvalidCode
    case Some(c) =>
      if g.broken then Fault
      else if CodeMatches(h, c.identifier, g.code, c.verification.payload.codeHash)
        && Decodes(p, c.verification.payload.payload)
      then Accepted(c, c.verification.payload.payload) else InvalidCode
  }

  function RowsAfterVerify(h: Host, rows: seq<Row>, signed: bool, p: Purpose, handle: string, g: Guess): seq<Row> {
    var rest := RowsAfterClaim(h, rows, RowPurpose(p.name), handle, g.claimAt);
    match ClaimAnswer(h, rows, RowPurpose(p.name), handle, g.claimAt)
    case None => rest
    case Some(c) =>
      var row := c.verification;
      if g.broken then rest + [Restored(signed, row, g.readAt, g.writeAt)]
      else if CodeMatches(h, c.identifier, g.code, row.payload.codeHash) || row.payload.attemptsLeft <= 1 then rest
      else rest + [Restored(signed, Spend(row), g.readAt, g.writeAt)]
  }

  class ChallengesService {
    const verifications: VerificationsService
    var rowPurposes: map<string, Purpose>

    predicate Valid()
      reads this
    {
      forall n :: n in rowPurposes ==> rowPurposes[n] == RowPurpose(n)
    }

    constructor (verifications: VerificationsService)
      ensures Valid() && this.verifications == verifications
    {
      this.verifications := verifications;
      rowPurposes := map[];
    }

    method PurposeOfRows(name: string) returns (p: Purpose)
      requires Valid()
      modifies this
      ensures Valid() && p == RowPurpose(name)
    {
      if name in rowPurposes {
        return rowPurposes[name];
      }
      p := Purpose(CodeNamespace(name), ChallengeRow);
      rowPurposes := rowPurposes[name := p];
    }

    /** A budget below one is the caller's defect and touches nothing. */
    method IssueCode(h: Host, p: Purpose, subject: string, code: string, ttl: int, attempts: int, payload: Column,
                     secret: string, now: int)
      returns (issued: Option<(string, int)>)
      requires Valid()
      modifies this, verifications
      ensures Valid()
      ensures issued == if attempts < 1 then None else Some((EncodeSubjectToken(h, subject, secret), now + ttl))
      ensures verifications.rows == if attempts < 1 then old(verifications.rows)
                                    else RowsAfterIssue(h, old(verifications.rows), p, subject, code, now + ttl,
                                                        attempts, payload, secret)
    {
      if attempts < 1 {
        return None;
      }
      var wrapped := PurposeOfRows(p.name);
      var identifier := IdentifierOf(wrapped, subject);
      var inner := if p.schema.NoPayload? then Null else payload;
      var _ := verifications.Retire(p, subject);
      var _ := verifications.Retire(wrapped, subject);
      var token, expiresAt, _ :=
        verifications.Issue(h, wrapped, subject, ttl, Code(CodeHash(h, identifier, code), attempts, inner), secret,
                            now);
      return Some((token, expiresAt));
    }

    method VerifyCode(h: Host, signed: bool, p: Purpose, handle: string, g: Guess) returns (reply: Reply)
      requires Valid()
      modifies this, verifications
      ensures Valid()
      ensures reply == ReplyTo(h, old(verifications.rows), p, handle, g)
      ensures verifications.rows == RowsAfterVerify(h, old(verifications.rows), signed, p, handle, g)
    {
      var parts := DecodeSubjectToken(h, handle);
      if parts.None? {
        return InvalidCode;
      }
      var wrapped := PurposeOfRows(p.name);
      var claimed := verifications.Claim(h, wrapped, handle, g.claimAt);
      if claimed.None? {
        return InvalidCode;
      }
      var c := claimed.value;
      var row := c.verification;
      if g.broken {
        Restore(h, signed, wrapped, c, row.payload, parts.value.secret, g);
        return Fault;
      }
      if CodeMatches(h, c.identifier, g.code, row.payload.codeHash) {
        return if Decodes(p, row.payload.payload) then Accepted(c, row.payload.payload) else InvalidCode;
      }
      if row.payload.attemptsLeft > 1 {
        Restore(h, signed, wrapped, c, row.payload.(attemptsLeft := row.payload.attemptsLeft - 1), parts.value.secret,
                g);
      }
      return InvalidCode;
    }

    /** The inner `restore`: the claimed row again, under its own handle, with the budget given. */
    method Restore(h: Host, signed: bool, wrapped: Purpose, c: Claimed, payload: Column, secret: string, g: Guess)
      requires wrapped.schema == ChallengeRow
      requires c.verification.identifier == IdentifierOf(wrapped, c.subject)
               && c.verification.valueHash == Sha256(secret)
      modifies verifications
      ensures verifications.rows
              == old(verifications.rows) + [Restored(signed, c.verification.(payload := payload), g.readAt, g.writeAt)]
    {
      var ttl := Distance(signed, g.readAt, c.verification.expiresAt);
      var _, _, _ := verifications.Issue(h, wrapped, c.subject, ttl, payload, secret, g.writeAt);
    }

    method Retire(p: Purpose, subject: string)
      requires Valid()
      modifies this, verifications
      ensures Valid()
      ensures verifications.rows
              == Delete(old(verifications.rows), ByIdentifier(IdentifierOf(RowPurpose(p.name), subject)))
    {
      var wrapped := PurposeOfRows(p.name);
      var _ := verifications.Retire(wrapped, subject);
    }
  }

  function RowsAfterIssue(h: Host, rows: seq<Row>, p: Purpose, subject: string, code: string, expiresAt: int,
                          attempts: int, payload: Column, secret: string): seq<Row> {
    var identifier := IdentifierOf(RowPurpose(p.name), subject);
    Delete(Delete(rows, ByIdentifier(IdentifierOf(p, subject))), ByIdentifier(identifier))
    + [Row(identifier, Sha256(secret),
           Code(CodeHash(h, identifier, code), attempts, if p.schema.NoPayload? then Null else payload), expiresAt)]
  }

  /**
    Issuing is these machine steps in this order. It leaves the subject one row in either
    namespace, the new one, and a ledger entry that says what was issued.
   */
  lemma IssueIsARun(h: Host, s: State, p: Purpose, subject: string, code: string, expiresAt: int, attempts: int,
                    payload: Column, secret: string, r: Row)
    requires attempts >= 1 && secret !in s.minted
    ensures var identifier := IdentifierOf(RowPurpose(p.name), subject);
            var after := RowsAfterIssue(h, s.rows, p, subject, code, expiresAt, attempts, payload, secret);
            var inner := if p.schema.NoPayload? then Null else payload;
            var end := Run(h, s, [Retire(IdentifierOf(p, subject)), Retire(identifier),
                                  IssueCode(secret, identifier, code, attempts, inner, expiresAt)]);
            && end.rows == after
            && end.ledger == s.ledger[secret := Entry(identifier, code, attempts, inner, expiresAt, 0, 0, 0)]
            && (r.identifier == IdentifierOf(p, subject) || r.identifier == identifier ==>
                  (r in after <==> r == after[|after| - 1]))
            && (r.identifier != IdentifierOf(p, subject) && r.identifier != identifier ==>
                (r in after <==> r in s.rows))
  {
    var identifier := IdentifierOf(RowPurpose(p.name), subject);
    var last := IssueCode(secret, identifier, code, attempts, if p.schema.NoPayload? then Null else payload, expiresAt);
    var first, second := Retire(IdentifierOf(p, subject)), Retire(identifier);
    RunThree(h, s, first, second, last);
    var after := RowsAfterIssue(h, s.rows, p, subject, code, expiresAt, attempts, payload, secret);
    assert after[|after| - 1] in after;
  }

  lemma RunThree(h: Host, s: State, a: Step, b: Step, c: Step)
    ensures Run(h, s, [a, b, c]) == Apply(h, Apply(h, Apply(h, s, a), b), c)
  {
    hide Apply;
    assert [a, b, c][1..] == [b, c] && [b, c][1..] == [c] && [c][1..] == [];
    assert Run(h, Apply(h, s, a), [b, c]) == Apply(h, Apply(h, Apply(h, s, a), b), c) by {
      assert Run(h, Apply(h, Apply(h, s, a), b), [c]) == Apply(h, Apply(h, Apply(h, s, a), b), c);
    }
  }

  // ---------------------------------------------------------------------------
  // One caller, guess after guess
  // ---------------------------------------------------------------------------

  /** What a caller hears who presents one handle again and again. */
  function Replies(h: Host, rows: seq<Row>, signed: bool, p: Purpose, handle: string, gs: seq<Guess>): (r: seq<Reply>)
    ensures |r| == |gs|
    decreases |gs|
  {
    if gs == [] then []
    else
      var after := RowsAfterVerify(h, rows, signed, p, handle, gs[0]);
      [ReplyTo(h, rows, p, handle, gs[0])] + Replies(h, after, signed, p, handle, gs[1..])
  }

  /** Comparisons that ran and were wrong. */
  function Missed(gs: seq<Guess>, code: string): nat
    decreases |gs|
  {
    if gs == [] then 0 else (if !gs[0].broken && gs[0].code != code then 1 else 0) + Missed(gs[1..], code)
  }

  predicate Hits(g: Guess, code: string) { !g.broken && g.code == code }

  /** Calls one after another, their clock reads in the order the calls make them. */
  predicate InOrder(gs: seq<Guess>) {
    && (forall i :: 0 <= i < |gs| ==> gs[i].claimAt <= gs[i].readAt <= gs[i].writeAt)
    && (forall i, j :: 0 <= i < j < |gs| ==> gs[i].writeAt <= gs[j].claimAt)
  }

  /** Where one restore leaves an expiry, for a guess that claims the row. */
  function Postponed(signed: bool, expiresAt: int, g: Guess): int {
    if g.claimAt >= expiresAt then expiresAt else g.writeAt + Distance(signed, g.readAt, expiresAt)
  }

  /** The expiry a row has after guesses that were all restored: each adds the gap between its reads. */
  function Deadline(signed: bool, expiresAt: int, gs: seq<Guess>): int
    decreases |gs|
  {
    if gs == [] then expiresAt else Deadline(signed, Postponed(signed, expiresAt, gs[0]), gs[1..])
  }

  /** Where reads coincide within each call the deadline is the expiry the challenge was issued with. */
  lemma {:induction false} DeadlineStands(signed: bool, expiresAt: int, gs: seq<Guess>)
    requires forall i :: 0 <= i < |gs| ==> gs[i].claimAt == gs[i].readAt == gs[i].writeAt
    ensures Deadline(signed, expiresAt, gs) == expiresAt
    decreases |gs|
  {
    if gs != [] {
      DeadlineStands(signed, expiresAt, gs[1..]);
    }
  }

  predicate Alone(rows: seq<Row>, row: Row) {
    row in rows && forall r :: r in rows && r.valueHash == row.valueHash ==> r == row
  }

  /** A guess finds the row: it is in time, the budget is not spent, and no guess before it was right. */
  predicate Reaches(signed: bool, gs: seq<Guess>, i: int, code: string, budget: int, expiresAt: int)
    requires 0 <= i < |gs|
  {
    && gs[i].claimAt < Deadline(signed, expiresAt, gs[..i]) && Missed(gs[..i], code) < budget
    && forall j :: 0 <= j < i ==> !Hits(gs[j], code)
  }

  /** The row after guesses none of which was right: one attempt fewer for each miss, and the deadline they leave. */
  function Left(signed: bool, row: Row, gs: seq<Guess>, code: string): Row
    requires row.payload.Code?
  {
    row.(payload := row.payload.(attemptsLeft := row.payload.attemptsLeft - Missed(gs, code)),
         expiresAt := Deadline(signed, row.expiresAt, gs))
  }

  /** A live row of one challenge, the only one with its digest. */
  predicate Backing(h: Host, rows: seq<Row>, p: Purpose, subject: string, secret: string, code: string, row: Row) {
    && Alone(rows, row) && row.identifier == IdentifierOf(RowPurpose(p.name), subject)
    && row.valueHash == Sha256(secret)
    && row.payload.Code? && row.payload.codeHash == CodeHash(h, row.identifier, code)
    && row.payload.attemptsLeft >= 1
  }

  /**
    What each of any serial guesses is answered. The one that wins is the first right one,
    before the deadline, with fewer misses before it than the budget; it is told whose
    challenge it was and what that carried. A fault in time is told so, anybody else nothing.
   */
  lemma {:induction false} FirstRightGuessWins(h: Host, rows: seq<Row>, signed: bool, p: Purpose, subject: string,
                                               secret: string, code: string, row: Row, gs: seq<Guess>, i: nat)
    requires Lawful(h) && subject != "" && secret != "" && InOrder(gs) && i < |gs|
    requires Backing(h, rows, p, subject, secret, code, row)
    ensures Replies(h, rows, signed, p, EncodeSubjectToken(h, subject, secret), gs)[i]
         == if !Reaches(signed, gs, i, code, row.payload.attemptsLeft, row.expiresAt) then InvalidCode
            else if gs[i].broken then Fault
            else if gs[i].code != code || !Decodes(p, row.payload.payload) then InvalidCode
            else Accepted(Claimed(subject, row.identifier, Left(signed, row, gs[..i], code)), row.payload.payload)
    decreases |gs|
  {
    hide CodeHash, RowsAfterVerify, ReplyTo, EncodeSubjectToken, Alone, Postponed, Decodes;
    var handle := EncodeSubjectToken(h, subject, secret);
    var g, after := gs[0], RowsAfterVerify(h, rows, signed, p, handle, gs[0]);
    FirstGuess(h, rows, signed, p, subject, secret, code, row, g);
    if i > 0 {
      assert Replies(h, rows, signed, p, handle, gs)[i] == Replies(h, after, signed, p, handle, gs[1..])[i - 1];
      assert InOrder(gs[1..]) by {
        assert forall j :: 0 <= j < |gs| - 1 ==> gs[1..][j] == gs[j + 1];
      }
      ReachesTail(signed, gs, i, code, row);
      if g.claimAt < row.expiresAt && (Hits(g, code) || (!g.broken && row.payload.attemptsLeft == 1)) {
        GoneForGood(h, after, signed, p, subject, secret, gs[1..], i - 1);
      } else {
        assert gs[1..][i - 1] == gs[i];
        FirstRightGuessWins(h, after, signed, p, subject, secret, code, Next(signed, row, g), gs[1..], i - 1);
      }
    } else {
      assert gs[..0] == [] && Left(signed, row, [], code) == row;
    }
  }

  /**
    An issued code is answered with the subject and the payload it was issued for, on what is
    left of its own budget.
   */
  lemma IssuedCodeAnswers(h: Host, rows: seq<Row>, signed: bool, p: Purpose, subject: string, code: string,
                          expiresAt: int, attempts: int, payload: Column, secret: string, gs: seq<Guess>, i: nat)
    requires Lawful(h) && subject != "" && secret != "" && InOrder(gs) && i < |gs| && attempts >= 1
    requires forall r :: r in rows ==> r.valueHash != Sha256(secret)
    ensures var identifier := p.name + "#code:" + subject;
            var inner := if p.schema.NoPayload? then Null else payload;
            var after := RowsAfterIssue(h, rows, p, subject, code, expiresAt, attempts, payload, secret);
            var reply := Replies(h, after, signed, p, EncodeSubjectToken(h, subject, secret), gs)[i];
            var left := Row(identifier, Sha256(secret),
                            Code(CodeHash(h, identifier, code), attempts - Missed(gs[..i], code), inner),
                            Deadline(signed, expiresAt, gs[..i]));
            if Reaches(signed, gs, i, code, attempts, expiresAt) && Hits(gs[i], code) && Decodes(p, inner)
            then reply == Accepted(Claimed(subject, identifier, left), inner)
            else !reply.Accepted?
  {
    hide CodeHash, Replies, EncodeSubjectToken, Decodes, Deadline, Missed, Reaches;
    var identifier := IdentifierOf(RowPurpose(p.name), subject);
    assert identifier == p.name + "#code:" + subject by {
      assert "#code" + [':'] == "#code:";
    }
    var inner := if p.schema.NoPayload? then Null else payload;
    var row := Row(identifier, Sha256(secret), Code(CodeHash(h, identifier, code), attempts, inner), expiresAt);
    var after := RowsAfterIssue(h, rows, p, subject, code, expiresAt, attempts, payload, secret);
    assert after[|after| - 1] == row;
    FirstRightGuessWins(h, after, signed, p, subject, secret, code, row, gs, i);
  }

  /** The row a guess that neither wins nor spends the last attempt leaves behind. */
  function Next(signed: bool, row: Row, g: Guess): Row
    requires row.payload.Code?
  {
    var kept := if g.claimAt >= row.expiresAt || g.broken then row else Spend(row);
    kept.(expiresAt := Postponed(signed, row.expiresAt, g))
  }

  /**
    Reaching the row after a first guess: impossible once that hit or spent the last attempt in
    time, otherwise reaching what it left.
   */
  lemma ReachesTail(signed: bool, gs: seq<Guess>, i: int, code: string, row: Row)
    requires 0 < i < |gs| && InOrder(gs) && row.payload.Code? && row.payload.attemptsLeft >= 1
    ensures var g, next, budget := gs[0], Next(signed, row, gs[0]), row.payload.attemptsLeft;
            if g.claimAt < row.expiresAt && (Hits(g, code) || (!g.broken && budget == 1))
            then !Reaches(signed, gs, i, code, budget, row.expiresAt)
            else
              && (Reaches(signed, gs, i, code, budget, row.expiresAt) <==>
                  Reaches(signed, gs[1..], i - 1, code, next.payload.attemptsLeft, next.expiresAt))
              && (Reaches(signed, gs, i, code, budget, row.expiresAt) ==>
                  Left(signed, row, gs[..i], code) == Left(signed, next, gs[1..][..i - 1], code))
  {
    var expiresAt := row.expiresAt;
    var g := gs[0];
    assert gs[..i][1..] == gs[1..][..i - 1] && gs[..i][0] == g;
    assert forall j :: 0 <= j < |gs| - 1 ==> gs[1..][j] == gs[j + 1];
    var earlier := forall j :: 0 <= j < i ==> !Hits(gs[j], code);
    assert earlier <==> !Hits(g, code) && forall j :: 0 <= j < i - 1 ==> !Hits(gs[1..][j], code) by {
      if !Hits(g, code) && forall j :: 0 <= j < i - 1 ==> !Hits(gs[1..][j], code) {
        forall j | 0 <= j < i ensures !Hits(gs[j], code) {
          assert j > 0 ==> !Hits(gs[1..][j - 1], code);
        }
      }
    }
    if g.claimAt >= expiresAt {
      PastDeadline(signed, expiresAt, gs[..i], g.claimAt);
      PastDeadline(signed, Postponed(signed, expiresAt, g), gs[1..][..i - 1], g.claimAt);
    }
  }

  /** A row expired at some moment stays so: no later guess moves its deadline. */
  lemma {:induction false} PastDeadline(signed: bool, expiresAt: int, gs: seq<Guess>, at: int)
    requires expiresAt <= at
    requires forall i :: 0 <= i < |gs| ==> at <= gs[i].claimAt
    ensures Deadline(signed, expiresAt, gs) == expiresAt
    decreases |gs|
  {
    if gs != [] {
      PastDeadline(signed, expiresAt, gs[1..], at);
    }
  }

  /** One guess against a live row: its answer, and what it leaves behind. */
  lemma FirstGuess(h: Host, rows: seq<Row>, signed: bool, p: Purpose, subject: string, secret: string, code: string,
                   row: Row, g: Guess)
    requires Lawful(h) && subject != "" && secret != ""
    requires Backing(h, rows, p, subject, secret, code, row)
    ensures var handle := EncodeSubjectToken(h, subject, secret);
            var after := RowsAfterVerify(h, rows, signed, p, handle, g);
            && ReplyTo(h, rows, p, handle, g)
               == (if g.claimAt >= row.expiresAt then InvalidCode
                   else if g.broken then Fault
                   else if g.code != code || !Decodes(p, row.payload.payload) then InvalidCode
                   else Accepted(Claimed(subject, row.identifier, row), row.payload.payload))
            && (if g.claimAt < row.expiresAt && (Hits(g, code) || (!g.broken && row.payload.attemptsLeft == 1))
                then forall r :: r in after ==> r.valueHash != Sha256(secret)
                else Backing(h, after, p, subject, secret, code, Next(signed, row, g)))
  {
    var claim := Claimable(row.identifier, row.valueHash, g.claimAt);
    SubjectTokenRoundTrip(h, subject, secret);
    CodeHashBinds(h, row.identifier, code, row.identifier, g.code);
    hide CodeHash;
    if g.claimAt >= row.expiresAt {
      NothingToDelete(rows, claim);
      assert Next(signed, row, g) == row;
    } else {
      TheOnlyMatch(rows, claim, row);
      assert Restored(signed, if g.broken then row else Spend(row), g.readAt, g.writeAt) == Next(signed, row, g);
    }
  }

  /** A call touches the row its handle names and no other. */
  lemma OthersStand(h: Host, rows: seq<Row>, signed: bool, p: Purpose, handle: string, g: Guess, r: Row)
    requires match DecodeSubjectToken(h, handle)
             case None => true
             case Some(parts) =>
               r.valueHash != Sha256(parts.secret) || r.identifier != IdentifierOf(RowPurpose(p.name), parts.subject)
    ensures r in RowsAfterVerify(h, rows, signed, p, handle, g) <==> r in rows
  {
    hide CodeHash;
  }

  lemma {:induction false} GoneForGood(h: Host, rows: seq<Row>, signed: bool, p: Purpose, subject: string,
                                       secret: string, gs: seq<Guess>, i: nat)
    requires Lawful(h) && subject != "" && secret != "" && i < |gs|
    requires forall r :: r in rows ==> r.valueHash != Sha256(secret)
    ensures Replies(h, rows, signed, p, EncodeSubjectToken(h, subject, secret), gs)[i] == InvalidCode
    decreases |gs|
  {
    SubjectTokenRoundTrip(h, subject, secret);
    var identifier := IdentifierOf(RowPurpose(p.name), subject);
    NothingToDelete(rows, Claimable(identifier, Sha256(secret), gs[0].claimAt));
    if i > 0 {
      GoneForGood(h, rows, signed, p, subject, secret, gs[1..], i - 1);
    }
  }

  // ---------------------------------------------------------------------------
  // A call is a run of one fibre
  // ---------------------------------------------------------------------------

  function OutcomeOf(reply: Reply, g: Guess): Outcome {
    match reply
    case Accepted(c, _) => Answered(g.code, c.identifier)
    case InvalidCode => Refused
    case Fault => Faulted
  }

  function CallSteps(f: nat, p: Purpose, parts: SubjectToken, g: Guess): seq<Step>
    requires g.claimAt <= g.readAt <= g.writeAt
  {
    [Claim(f, IdentifierOf(RowPurpose(p.name), parts.subject), parts.secret, g.code, g.claimAt),
     Compare(f, p, g.broken),
     Tick(g.readAt - g.claimAt), ReadClock(f), Tick(g.writeAt - g.readAt), Stamp(f), WriteBack(f)]
  }

  /** Undisturbed, a fibre's steps leave the rows and the answer that `VerifyCode` does. */
  lemma VerifyIsARun(h: Host, s: State, f: nat, p: Purpose, handle: string, g: Guess)
    requires f !in s.fibres && s.now == g.claimAt <= g.readAt <= g.writeAt && DecodeSubjectToken(h, handle).Some?
    ensures var parts := DecodeSubjectToken(h, handle).value;
            var end := Run(h, s, CallSteps(f, p, parts, g));
            && end.rows == RowsAfterVerify(h, s.rows, s.signed, p, handle, g)
            && end.fibres == s.fibres[f := Done(parts.secret, OutcomeOf(ReplyTo(h, s.rows, p, handle, g), g))]
  {
    hide Apply, Run, CodeHash, DecodeSubjectToken;
    var parts := DecodeSubjectToken(h, handle).value;
    var steps := CallSteps(f, p, parts, g);
    var claimed := Apply(h, s, steps[0]);
    var compared := Apply(h, claimed, steps[1]);
    RunsThrough(h, s, steps);
    ClaimStep(h, s, f, p, handle, g);
    CompareStep(h, claimed, f, p, g.broken);
    WriteBackSteps(h, compared, f, g.readAt - g.claimAt, g.writeAt - g.readAt);
    hide Restored, CodeMatches, Decodes, ClaimAnswer, RowsAfterClaim;
    assert g.claimAt + (g.readAt - g.claimAt) + (g.writeAt - g.readAt) == g.writeAt;
  }

  lemma CompareStep(h: Host, s: State, f: nat, p: Purpose, broken: bool)
    requires f in s.fibres && (s.fibres[f].Done? || (s.fibres[f].Comparing? && s.fibres[f].row.payload.Code?))
    ensures var t := Apply(h, s, Compare(f, p, broken));
            && t.rows == s.rows && t.now == s.now && t.signed == s.signed
            && t.fibres == if s.fibres[f].Done? then s.fibres
              else s.fibres[f := AfterCompare(h, s.fibres[f], p, broken)]
  {
    hide CodeMatches, Decodes;
  }

  lemma ClaimStep(h: Host, s: State, f: nat, p: Purpose, handle: string, g: Guess)
    requires f !in s.fibres && DecodeSubjectToken(h, handle).Some?
    ensures var parts := DecodeSubjectToken(h, handle).value;
            var answer := ClaimAnswer(h, s.rows, RowPurpose(p.name), handle, g.claimAt);
            var fibre := if answer.Some? then Comparing(parts.secret, answer.value.verification, g.code)
                         else Done(parts.secret, Refused);
            && Apply(h, s, Claim(f, IdentifierOf(RowPurpose(p.name), parts.subject), parts.secret, g.code, g.claimAt))
               == s.(rows := RowsAfterClaim(h, s.rows, RowPurpose(p.name), handle, g.claimAt),
                     fibres := s.fibres[f := fibre])
            && (answer.Some? ==>
                answer.value.verification.payload.Code?
                  && answer.value.verification.identifier == answer.value.identifier)
  {
    hide CodeHash, Delete, FirstMatch;
  }

  /** The last five steps: a fibre that owes a row writes it back, any other does nothing. */
  lemma WriteBackSteps(h: Host, s: State, f: nat, wait: nat, pause: nat)
    requires f in s.fibres && (s.fibres[f].Owing? || s.fibres[f].Done?)
    ensures var t :=
              Apply(h, Apply(h, Apply(h, Apply(h, Apply(h, s, Tick(wait)), ReadClock(f)), Tick(pause)), Stamp(f)),
                    WriteBack(f));
            if s.fibres[f].Done? then t.rows == s.rows && t.fibres == s.fibres
            else && t.rows == s.rows + [Restored(s.signed, s.fibres[f].row, s.now + wait, s.now + wait + pause)]
                 && t.fibres == s.fibres[f := Done(s.fibres[f].secret, if s.fibres[f].broken then Faulted else Refused)]
  {
    hide CodeHash, Delete, FirstMatch, Restored, ChallengeRowOf;
    var read := Apply(h, Apply(h, s, Tick(wait)), ReadClock(f));
    if s.fibres[f].Owing? {
      assert read.fibres[f] == Timed(s.fibres[f].secret, s.fibres[f].row, s.fibres[f].broken, s.now + wait);
    }
  }

  lemma RunsThrough(h: Host, s: State, steps: seq<Step>)
    requires |steps| == 7
    ensures Run(h, s, steps) == Apply(h, Apply(h, Apply(h, Apply(h, Apply(h, Apply(h, Apply(h, s, steps[0]),
                                  steps[1]), steps[2]), steps[3]), steps[4]), steps[5]), steps[6])
  {
    hide Apply;
    var four := steps[3..];
    assert steps[1..][1..][1..] == four && steps[1..][0] == steps[1] && steps[1..][1..][0] == steps[2];
    assert four[1..][1..][1..] == [steps[6]] && four[0] == steps[3] && four[1..][0] == steps[4]
           && four[1..][1..][0] == steps[5];
    var s1 := Apply(h, s, steps[0]);
    var s2 := Apply(h, s1, steps[1]);
    var s3 := Apply(h, s2, steps[2]);
    var s4 := Apply(h, s3, steps[3]);
    var s5 := Apply(h, s4, steps[4]);
    var s6 := Apply(h, s5, steps[5]);
    assert Run(h, s6, [steps[6]]) == Apply(h, s6, steps[6]);
    assert Run(h, s4, four[1..]) == Run(h, s5, four[1..][1..]);
    assert Run(h, s3, four) == Run(h, s4, four[1..]);
    assert Run(h, s1, steps[1..]) == Run(h, s2, steps[1..][1..]);
  }
}
