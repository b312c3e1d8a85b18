/**
  Single-use tokens: the text a link carries, the rows it names, and the three
  operations over them. One SQL statement is one atomic assignment to `rows`.
 */
module Verifications {
  import opened Prelude
  import opened Texts
  import opened Platform

  // ---------------------------------------------------------------------------
  // Subject tokens
  // ---------------------------------------------------------------------------

  datatype SubjectToken = SubjectToken(subject: string, secret: string)

  function EncodeSubjectToken(h: Host, subject: string, secret: string): string {
    h.base64(h.utf8(subject)) + ['.'] + secret
  }

  function DecodeSubjectToken(h: Host, raw: string): Option<SubjectToken> {
    var at := IndexOf(raw, '.');
    if at <= 0 || at == |raw| - 1 then None
    else match h.fromBase64(raw[..at])
      case None => None
      case Some(bytes) => match h.fromUtf8(bytes)
        case None => None
        case Some(subject) => Some(SubjectToken(subject, raw[at + 1..]))
  }

  /** A token decodes to its halves, whatever they are, unless one of them is empty. */
  lemma SubjectTokenRoundTrip(h: Host, subject: string, secret: string)
    requires Lawful(h)
    ensures DecodeSubjectToken(h, EncodeSubjectToken(h, subject, secret))
         == if subject != "" && secret != "" then Some(SubjectToken(subject, secret)) else None
  {
    var head := h.base64(h.utf8(subject));
    var raw := head + ['.'] + secret;
    NoSeparator(h, h.utf8(subject), '.');
    NonEmptyEncoding(h, h.utf8(subject));
    NonEmptyUtf8(h, subject);
    IndexOfSeparator(head, '.', secret);
    assert raw[..|head|] == head && raw[|head| + 1..] == secret;
    assert h.fromBase64(head) == Some(h.utf8(subject));
    assert h.fromUtf8(h.utf8(subject)) == Some(subject);
  }

  /** Exactly the texts that are read as a token: a decodable head, a dot, a non-empty secret. */
  lemma DecodedExactly(h: Host, raw: string, t: SubjectToken)
    ensures DecodeSubjectToken(h, raw) == Some(t) <==>
            exists head: string :: raw == head + ['.'] + t.secret && Heads(h, head, t)
  {
    var at := IndexOf(raw, '.');
    if DecodeSubjectToken(h, raw) == Some(t) {
      assert raw == raw[..at] + ['.'] + t.secret && Heads(h, raw[..at], t);
    }
    forall head: string | raw == head + ['.'] + t.secret && Heads(h, head, t)
      ensures DecodeSubjectToken(h, raw) == Some(t)
    {
      IndexOfSeparator(head, '.', t.secret);
      assert raw[..at] == head && raw[at + 1..] == t.secret;
    }
  }

  predicate Heads(h: Host, head: string, t: SubjectToken) {
    && head != "" && '.' !in head && t.secret != ""
    && h.fromBase64(head).Some? && h.fromUtf8(h.fromBase64(head).value) == Some(t.subject)
  }

  // ---------------------------------------------------------------------------
  // Purposes and payloads
  // ---------------------------------------------------------------------------

  /** The payload column, as the JSON it holds. */
  datatype Column =
    | Null
    | NewEmail(newEmail: string)
    | Callback(url: Option<string>)
    | Code(codeHash: Mac, attemptsLeft: int, payload: Column)
    | Unreadable(text: string)

  /** What a purpose declares about its payload. */
  datatype Schema = NoPayload | ChangeEmail | DeleteAccount | ChallengeRow

  datatype Purpose = Purpose(name: string, schema: Schema)

  /** `decodePayload`: a purpose without a payload refuses a row that carries one. */
  predicate Decodes(p: Purpose, stored: Column) {
    match p.schema
    case NoPayload => stored.Null?
    case ChangeEmail => stored.NewEmail?
    case DeleteAccount => stored.Callback?
    case ChallengeRow => stored.Code?
  }

  function IdentifierOf(p: Purpose, subject: string): string { p.name + [':'] + subject }

  const EMAIL_VERIFY := Purpose("email-verify", NoPayload)
  const PASSWORD_RESET := Purpose("password-reset", NoPayload)
  const CHANGE_EMAIL_CONFIRM := Purpose("change-email-confirm", ChangeEmail)
  const CHANGE_EMAIL_VERIFY := Purpose("change-email-verify", ChangeEmail)
  const DELETE_ACCOUNT := Purpose("delete-account", DeleteAccount)

  const USER_SUBJECT_PURPOSES := [PASSWORD_RESET, CHANGE_EMAIL_CONFIRM, CHANGE_EMAIL_VERIFY, DELETE_ACCOUNT]

  function CodeNamespace(name: string): string { name + "#code" }

  /** Neither name is the other, or the other up to one of its colons. */
  predicate NamesApart(n: string, m: string) { n != m && !(n + [':'] <= m) && !(m + [':'] <= n) }

  /** Two purposes can write one identifier exactly when the names agree or one name extends the other at a colon. */
  lemma NamespacesCollide(p: Purpose, q: Purpose)
    ensures (exists s, t: string :: IdentifierOf(p, s) == IdentifierOf(q, t))
       <==> p.name == q.name || !NamesApart(p.name, q.name)
  {
    forall s, t: string | IdentifierOf(p, s) == IdentifierOf(q, t)
      ensures p.name == q.name || !NamesApart(p.name, q.name)
    {
      if |p.name| == |q.name| {
        assert IdentifierOf(p, s)[..|p.name|] == p.name && IdentifierOf(q, t)[..|p.name|] == q.name;
      } else if |p.name| < |q.name| {
        assert IdentifierOf(p, s)[..|p.name| + 1] == p.name + [':'];
        assert IdentifierOf(q, t)[..|p.name| + 1] == q.name[..|p.name| + 1];
      } else {
        assert IdentifierOf(q, t)[..|q.name| + 1] == q.name + [':'];
        assert IdentifierOf(p, s)[..|q.name| + 1] == p.name[..|q.name| + 1];
      }
    }
    if p.name == q.name {
      assert IdentifierOf(p, "") == IdentifierOf(q, "");
    } else if p.name + [':'] <= q.name {
      assert IdentifierOf(p, q.name[|p.name| + 1..] + [':']) == IdentifierOf(q, "");
    } else if q.name + [':'] <= p.name {
      assert IdentifierOf(q, p.name[|q.name| + 1..] + [':']) == IdentifierOf(p, "");
    }
  }

  /** Between one name and names apart from it, an identifier names its purpose and its subject. */
  lemma IdentifiersApart(p: Purpose, s: string, q: Purpose, t: string)
    requires p.name == q.name || NamesApart(p.name, q.name)
    ensures IdentifierOf(p, s) == IdentifierOf(q, t) <==> p.name == q.name && s == t
  {
    NamespacesCollide(p, q);
    if p.name == q.name {
      assert IdentifierOf(p, s)[|p.name| + 1..] == s && IdentifierOf(q, t)[|q.name| + 1..] == t;
    }
  }

  /** Every name, whatever it is, is apart from its own code namespace. */
  lemma CodesApartFromLinks(name: string)
    ensures NamesApart(CodeNamespace(name), name)
  {
    assert CodeNamespace(name)[|name|] == '#' && (name + [':'])[|name|] == ':';
  }

  // ---------------------------------------------------------------------------
  // The names the library and its plugins declare
  // ---------------------------------------------------------------------------

  const BARE_NAMES := ["email-verify", "password-reset", "change-email-confirm", "change-email-verify",
                       "delete-account", "passkey-challenge", "pending-auth"]
  const SCOPED_NAMES := [("email-otp", "sign-in"), ("email-otp", "verify-email"), ("email-otp", "reset-password"),
                         ("email-otp", "step-up"), ("email-otp", "change-email"),
                         ("phone", "verify"), ("phone", "signIn"), ("phone", "stepUp")]

  predicate Deployed(name: string) {
    name in BARE_NAMES || exists i :: 0 <= i < |SCOPED_NAMES| && name == SCOPED_NAMES[i].0 + [':'] + SCOPED_NAMES[i].1
  }

  /** A namespace rows are written under: a declared name, or the codes of one. */
  predicate DeployedNamespace(name: string) {
    Deployed(name) || (|name| >= 5 && Deployed(name[..|name| - 5]) && name == CodeNamespace(name[..|name| - 5]))
  }

  /** At most one colon, and before it a plugin that is no namespace itself. */
  predicate Tame(name: string) {
    var at := IndexOf(name, ':');
    && name != "email-otp" && name != "phone"
    && (at == -1 || ((name[..at] == "email-otp" || name[..at] == "phone") && ':' !in name[at + 1..]))
  }

  lemma BareIsTame(name: string)
    requires ':' !in name && name != "email-otp" && name != "phone"
    ensures Tame(name) && Tame(CodeNamespace(name))
  {
    if |CodeNamespace(name)| == |"phone"| || |CodeNamespace(name)| == |"email-otp"| {
      assert CodeNamespace(name)[|name|] == '#';
      assert '#' !in "phone" && '#' !in "email-otp";
    }
  }

  lemma ScopedIsTame(plugin: string, flow: string)
    requires plugin == "email-otp" || plugin == "phone"
    requires ':' !in flow
    ensures Tame(plugin + [':'] + flow) && Tame(CodeNamespace(plugin + [':'] + flow))
  {
    var name := plugin + [':'] + flow;
    assert CodeNamespace(name) == plugin + [':'] + (flow + "#code");
    IndexOfSeparator(plugin, ':', flow);
    IndexOfSeparator(plugin, ':', flow + "#code");
    assert name[..|plugin|] == plugin && name[|plugin| + 1..] == flow;
    assert CodeNamespace(name)[..|plugin|] == plugin && CodeNamespace(name)[|plugin| + 1..] == flow + "#code";
    assert ':' in name && ':' in CodeNamespace(name) && ':' !in "email-otp" && ':' !in "phone";
  }

  lemma TameApart(n: string, m: string)
    requires Tame(n) && Tame(m) && n != m
    ensures !(n + [':'] <= m)
  {
    assert (n + [':'])[|n|] == ':' && (n + [':'])[..|n|] == n;
    var at := IndexOf(m, ':');
    if at != -1 && |n| < |m| && m[|n|] == ':' {
      assert |n| == at by {
        assert m == m[..at] + [':'] + m[at + 1..];
      }
    }
  }

  /** No two namespaces of the library and its plugins, links or codes, can write one identifier. */
  lemma DeployedNamesApart(n: string, m: string)
    requires DeployedNamespace(n) && DeployedNamespace(m) && n != m
    ensures NamesApart(n, m)
  {
    DeployedIsTame(n);
    DeployedIsTame(m);
    TameApart(n, m);
    TameApart(m, n);
  }

  lemma DeployedIsTame(name: string)
    requires DeployedNamespace(name)
    ensures Tame(name)
  {
    hide Tame;
    var declared := if Deployed(name) then name else name[..|name| - 5];
    if declared in BARE_NAMES {
      var i :| 0 <= i < |BARE_NAMES| && BARE_NAMES[i] == declared;
      BareNames(i);
      BareIsTame(declared);
    } else {
      var i :| 0 <= i < |SCOPED_NAMES| && declared == SCOPED_NAMES[i].0 + [':'] + SCOPED_NAMES[i].1;
      ScopedNames(i);
      ScopedIsTame(SCOPED_NAMES[i].0, SCOPED_NAMES[i].1);
    }
  }

  lemma BareNames(i: nat)
    requires i < |BARE_NAMES|
    ensures ':' !in BARE_NAMES[i] && BARE_NAMES[i] != "email-otp" && BARE_NAMES[i] != "phone"
  {
    assert |BARE_NAMES[i]| > |"email-otp"|;
  }

  lemma ScopedNames(i: nat)
    requires i < |SCOPED_NAMES|
    ensures SCOPED_NAMES[i].0 == "email-otp" || SCOPED_NAMES[i].0 == "phone"
    ensures ':' !in SCOPED_NAMES[i].1
  {
  }

  // ---------------------------------------------------------------------------
  // The table
  // ---------------------------------------------------------------------------

  datatype Row = Row(identifier: string, valueHash: Digest, payload: Column, expiresAt: int)

  /** The `WHERE` clauses the store deletes under. */
  datatype Guard =
    | ByIdentifier(identifier: string)
    | Claimable(identifier: string, valueHash: Digest, now: int)
    | Expired(now: int)

  predicate Matches(g: Guard, r: Row) {
    match g
    case ByIdentifier(i) => r.identifier == i
    case Claimable(i, hash, now) => r.identifier == i && r.valueHash == hash && r.expiresAt > now
    case Expired(now) => r.expiresAt <= now
  }

  /** `DELETE ... WHERE g`: what stays, in place. */
  function Delete(rows: seq<Row>, g: Guard): (rest: seq<Row>)
    ensures forall r :: r in rest <==> r in rows && !Matches(g, r)
    ensures |rest| <= |rows|
  {
    if rows == [] then []
    else
      assert rows == [rows[0]] + rows[1..];
      Spared(g, rows[0]) + Delete(rows[1..], g)
  }

  /** A sweep takes exactly the rows that no claim could answer any more. */
  lemma SweepTakesTheDead(rows: seq<Row>, at: int, r: Row)
    ensures r in Delete(rows, Expired(at)) <==> r in rows && at < r.expiresAt
    ensures r in rows && r !in Delete(rows, Expired(at)) ==>
              forall i, hash, now :: at <= now ==> !Matches(Claimable(i, hash, now), r)
  {
  }

  function Spared(g: Guard, r: Row): seq<Row> { if Matches(g, r) then [] else [r] }

  /** `RETURNING *`: the first row the statement removed. */
  function FirstMatch(rows: seq<Row>, g: Guard): (r: Option<Row>)
    ensures r.Some? ==> r.value in rows && Matches(g, r.value)
    ensures r.None? ==> forall row :: row in rows ==> !Matches(g, row)
  {
    if rows == [] then None
    else if Matches(g, rows[0]) then Some(rows[0])
    else FirstMatch(rows[1..], g)
  }

  lemma {:induction false} NothingToDelete(rows: seq<Row>, g: Guard)
    requires forall r :: r in rows ==> !Matches(g, r)
    ensures Delete(rows, g) == rows && FirstMatch(rows, g).None?
  {
    hide Matches;
    if rows != [] {
      var rest := rows[1..];
      assert rows == [rows[0]] + rest;
      assert rows[0] in rows && forall r :: r in rest ==> r in rows;
      NothingToDelete(rest, g);
    }
  }

  /** A row no other row shares its digest with is the one a matching claim returns. */
  lemma TheOnlyMatch(rows: seq<Row>, g: Guard, r: Row)
    requires g.Claimable? && r in rows && Matches(g, r)
    requires forall row :: row in rows && row.valueHash == r.valueHash ==> row == r
    ensures FirstMatch(rows, g) == Some(r)
  {
  }

  // ---------------------------------------------------------------------------
  // The service
  // ---------------------------------------------------------------------------

  datatype Claimed = Claimed(subject: string, identifier: string, verification: Row)

  /** What a claim answers: every way of failing is the same `InvalidToken`. */
  function ClaimAnswer(h: Host, rows: seq<Row>, p: Purpose, token: string, now: int): Option<Claimed> {
    match DecodeSubjectToken(h, token)
    case None => None
    case Some(parts) =>
      var identifier := IdentifierOf(p, parts.subject);
      match FirstMatch(rows, Claimable(identifier, Sha256(parts.secret), now))
      case None => None
      case Some(row) => if Decodes(p, row.payload) then Some(Claimed(parts.subject, identifier, row)) else None
  }

  function RowsAfterClaim(h: Host, rows: seq<Row>, p: Purpose, token: string, now: int): seq<Row> {
    match DecodeSubjectToken(h, token)
    case None => rows
    case Some(parts) => Delete(rows, Claimable(IdentifierOf(p, parts.subject), Sha256(parts.secret), now))
  }

  class VerificationsService {
    var rows: seq<Row>

    constructor ()
      ensures rows == []
    {
      rows := [];
    }

    method Consume(identifier: string, valueHash: Digest, now: int) returns (r: Option<Row>)
      modifies this
      ensures r == FirstMatch(old(rows), Claimable(identifier, valueHash, now))
      ensures rows == Delete(old(rows), Claimable(identifier, valueHash, now))
    {
      r := FirstMatch(rows, Claimable(identifier, valueHash, now));
      rows := Delete(rows, Claimable(identifier, valueHash, now));
    }

    method Issue(h: Host, p: Purpose, subject: string, ttl: int, payload: Column, secret: string, now: int)
      returns (token: string, expiresAt: int, identifier: string)
      modifies this
      ensures token == EncodeSubjectToken(h, subject, secret)
      ensures expiresAt == now + ttl && identifier == IdentifierOf(p, subject)
      ensures rows
              == old(rows) + [Row(identifier, Sha256(secret), if p.schema.NoPayload? then Null else payload, expiresAt)]
    {
      expiresAt := now + ttl;
      identifier := IdentifierOf(p, subject);
      var stored := if p.schema.NoPayload? then Null else payload;
      rows := rows + [Row(identifier, Sha256(secret), stored, expiresAt)];
      token := EncodeSubjectToken(h, subject, secret);
    }

    method Claim(h: Host, p: Purpose, token: string, now: int) returns (r: Option<Claimed>)
      modifies this
      ensures r == ClaimAnswer(h, old(rows), p, token, now)
      ensures rows == RowsAfterClaim(h, old(rows), p, token, now)
    {
      var parts := DecodeSubjectToken(h, token);
      if parts.None? {
        return None;
      }
      var identifier := IdentifierOf(p, parts.value.subject);
      var consumed := Consume(identifier, Sha256(parts.value.secret), now);
      if consumed.None? || !Decodes(p, consumed.value.payload) {
        return None;
      }
      return Some(Claimed(parts.value.subject, identifier, consumed.value));
    }

    method Retire(p: Purpose, subject: string) returns (count: nat)
      modifies this
      ensures rows == Delete(old(rows), ByIdentifier(IdentifierOf(p, subject)))
      ensures count == |old(rows)| - |rows|
    {
      var before := |rows|;
      rows := Delete(rows, ByIdentifier(IdentifierOf(p, subject)));
      count := before - |rows|;
    }

    method RetireUserSubjectTokens(userId: string)
      modifies this
      ensures rows == RetiredAll(old(rows), USER_SUBJECT_PURPOSES, userId)
    {
      for i := 0 to |USER_SUBJECT_PURPOSES|
        invariant RetiredAll(rows, USER_SUBJECT_PURPOSES[i..], userId)
                  == RetiredAll(old(rows), USER_SUBJECT_PURPOSES, userId)
      {
        var _ := Retire(USER_SUBJECT_PURPOSES[i], userId);
      }
    }
  }

  function RetiredAll(rows: seq<Row>, ps: seq<Purpose>, subject: string): seq<Row>
    decreases |ps|
  {
    if ps == [] then rows
    else RetiredAll(Delete(rows, ByIdentifier(IdentifierOf(ps[0], subject))), ps[1..], subject)
  }

  predicate NamedBy(r: Row, ps: seq<Purpose>, subject: string) {
    exists i :: 0 <= i < |ps| && r.identifier == IdentifierOf(ps[i], subject)
  }

  /** Retiring a list of purposes removes exactly their rows for that subject. */
  lemma {:induction false} RetiredExactly(rows: seq<Row>, ps: seq<Purpose>, subject: string)
    ensures forall r :: r in RetiredAll(rows, ps, subject) <==> r in rows && !NamedBy(r, ps, subject)
    decreases |ps|
  {
    if ps != [] {
      RetiredExactly(Delete(rows, ByIdentifier(IdentifierOf(ps[0], subject))), ps[1..], subject);
      assert ps == [ps[0]] + ps[1..];
    }
  }

  /** After a user's tokens are retired none of the four kinds claims for them, and the address link is untouched. */
  lemma UserTokensRetired(h: Host, rows: seq<Row>, userId: string, p: Purpose, secret: string, now: int,
                          address: string)
    requires Lawful(h) && p in USER_SUBJECT_PURPOSES
    ensures ClaimAnswer(h, RetiredAll(rows, USER_SUBJECT_PURPOSES, userId), p, EncodeSubjectToken(h, userId, secret),
                        now).None?
    ensures forall r :: r in rows && r.identifier == IdentifierOf(EMAIL_VERIFY, address)
                    ==> r in RetiredAll(rows, USER_SUBJECT_PURPOSES, userId)
  {
    RetiredExactly(rows, USER_SUBJECT_PURPOSES, userId);
    SubjectTokenRoundTrip(h, userId, secret);
    forall i | 0 <= i < |USER_SUBJECT_PURPOSES|
      ensures IdentifierOf(EMAIL_VERIFY, address) != IdentifierOf(USER_SUBJECT_PURPOSES[i], userId)
    {
      assert IdentifierOf(EMAIL_VERIFY, address)[0] == 'e' && IdentifierOf(USER_SUBJECT_PURPOSES[i], userId)[0] != 'e';
    }
  }

  /**
    A claimed token is spent: until it is minted again, no claim of it at that moment or later
    succeeds, under any purpose of the name.
   */
  lemma ClaimedOnce(h: Host, rows: seq<Row>, p: Purpose, q: Purpose, token: string, now: int, later: int)
    requires p.name == q.name && now <= later
    ensures ClaimAnswer(h, RowsAfterClaim(h, rows, p, token, now), q, token, later).None?
    ensures RowsAfterClaim(h, RowsAfterClaim(h, rows, p, token, now), q, token, later)
            == RowsAfterClaim(h, rows, p, token, now)
  {
    match DecodeSubjectToken(h, token)
    case None =>
    case Some(parts) =>
      assert IdentifierOf(p, parts.subject) == IdentifierOf(q, parts.subject);
      NothingToDelete(RowsAfterClaim(h, rows, p, token, now),
                      Claimable(IdentifierOf(q, parts.subject), Sha256(parts.secret), later));
  }

  /** Issue then claim: the holder gets the row back exactly until it expires, and only that row goes. */
  lemma IssuedIsClaimable(h: Host, rows: seq<Row>, p: Purpose, subject: string, secret: string, payload: Column,
                          expiresAt: int, now: int)
    requires Lawful(h) && subject != "" && secret != "" && Decodes(p, payload)
    requires forall r :: r in rows ==> r.valueHash != Sha256(secret)
    ensures var row := Row(IdentifierOf(p, subject), Sha256(secret), payload, expiresAt);
            var token := EncodeSubjectToken(h, subject, secret);
            && ClaimAnswer(h, rows + [row], p, token, now)
              == (if now < expiresAt then Some(Claimed(subject, row.identifier, row)) else None)
            && RowsAfterClaim(h, rows + [row], p, token, now) == (if now < expiresAt then rows else rows + [row])
  {
    var row := Row(IdentifierOf(p, subject), Sha256(secret), payload, expiresAt);
    var g := Claimable(row.identifier, row.valueHash, now);
    SubjectTokenRoundTrip(h, subject, secret);
    DeleteAppend(rows, row, g);
    NothingToDelete(rows, g);
    if now < expiresAt {
      TheOnlyMatch(rows + [row], g, row);
    } else {
      NothingToDelete(rows + [row], g);
    }
  }

  lemma {:induction false} DeleteAppend(rows: seq<Row>, r: Row, g: Guard)
    ensures Delete(rows + [r], g) == Delete(rows, g) + Spared(g, r)
  {
    hide Matches, Spared;
    if rows == [] {
      assert rows + [r] == [r] && [r][1..] == [];
    } else {
      assert (rows + [r])[1..] == rows[1..] + [r];
      DeleteAppend(rows[1..], r, g);
    }
  }

  /** A claim presented under a name apart from a row's, link or code, cannot reach it: the row stays. */
  lemma OtherPurposesCannotReach(h: Host, rows: seq<Row>, p: Purpose, token: string, now: int, row: Row, q: Purpose,
                                 subject: string)
    requires NamesApart(p.name, q.name) && row in rows && row.identifier == IdentifierOf(q, subject)
    ensures row in RowsAfterClaim(h, rows, p, token, now)
    ensures ClaimAnswer(h, rows, p, token, now).Some? ==> ClaimAnswer(h, rows, p, token, now).value.verification != row
  {
    match DecodeSubjectToken(h, token)
    case None =>
    case Some(parts) => IdentifiersApart(p, parts.subject, q, subject);
  }

  /** Whatever a purpose is called, a handle cannot be spent as a link of it, nor a link as a handle. */
  lemma HandlesAreNotLinks(h: Host, rows: seq<Row>, p: Purpose, token: string, now: int, row: Row, subject: string)
    requires row in rows
    ensures var codes := Purpose(CodeNamespace(p.name), ChallengeRow);
            && (row.identifier == IdentifierOf(codes, subject) ==> row in RowsAfterClaim(h, rows, p, token, now))
            && (row.identifier == IdentifierOf(p, subject) ==> row in RowsAfterClaim(h, rows, codes, token, now))
  {
    var codes := Purpose(CodeNamespace(p.name), ChallengeRow);
    CodesApartFromLinks(p.name);
    if row.identifier == IdentifierOf(codes, subject) {
      OtherPurposesCannotReach(h, rows, p, token, now, row, codes, subject);
    }
    if row.identifier == IdentifierOf(p, subject) {
      OtherPurposesCannotReach(h, rows, codes, token, now, row, p, subject);
    }
  }
}
