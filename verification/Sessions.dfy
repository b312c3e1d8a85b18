/**
  The session life cycle: creation, verification with its rolling refresh,
  elevation with token rotation, expiry and revocation. A `verify` call reads a
  row, decides by the clock, and writes later, so what survives is proved over
  every interleaving.

  Tokens are compared by the digest stored for them.
 */
module Sessions {
  import opened Prelude
  import opened Platform
  import opened Assurance

  datatype Session = Session(
    id: nat, tokenHash: Digest, userId: nat, expiresAt: int, rememberMe: bool, methods: seq<AuthenticationMethod>,
    aal: Aal, authenticatedAt: int, updatedAt: int)

  /** Durations in milliseconds. */
  datatype Config = Config(expiresIn: int, updateAge: int, freshAge: int, rememberMeDisabledExpiresIn: int)

  /** What `AuthConfig` refuses to start without. */
  predicate ValidConfig(c: Config) {
    && c.expiresIn > 0 && c.updateAge > 0 && c.freshAge > 0 && c.rememberMeDisabledExpiresIn > 0
    && c.updateAge < c.expiresIn && c.updateAge <= c.rememberMeDisabledExpiresIn
  }

  function Ttl(c: Config, rememberMe: bool): int {
    if rememberMe then c.expiresIn else c.rememberMeDisabledExpiresIn
  }

  // ---------------------------------------------------------------------------
  // Lifetime arithmetic
  // ---------------------------------------------------------------------------

  function GrantedLifetime(s: Session, c: Config): int {
    if s.expiresAt - s.updatedAt > 0 then s.expiresAt - s.updatedAt else c.expiresIn
  }

  function RefreshDueAt(s: Session, c: Config): int { s.expiresAt - GrantedLifetime(s, c) + c.updateAge }

  predicate IsRefreshDue(s: Session, c: Config, now: int) { RefreshDueAt(s, c) <= now }

  predicate IsExpired(s: Session, now: int) { s.expiresAt <= now }

  predicate IsFreshAt(s: Session, c: Config, now: int) { s.authenticatedAt + c.freshAge > now }

  function Touched(s: Session, expiresAt: int, at: int): Session { s.(expiresAt := expiresAt, updatedAt := at) }

  /**
    A refresh keeps the lifetime it read exactly when its two clock reads coincide, and
    otherwise shortens it by the gap.
   */
  lemma RefreshNeverLengthens(s: Session, c: Config, now: int, later: int)
    requires s.updatedAt <= now <= later && !IsExpired(s, now)
    ensures var t := Touched(s, now + GrantedLifetime(s, c), later);
            && t.expiresAt - t.updatedAt == GrantedLifetime(s, c) - (later - now)
            && (GrantedLifetime(t, c) == GrantedLifetime(s, c) <==>
                now == later || (later - now >= GrantedLifetime(s, c) && GrantedLifetime(s, c) == c.expiresIn))
            && (t.expiresAt > t.updatedAt ==> GrantedLifetime(t, c) <= GrantedLifetime(s, c))
  {
  }

  /**
    A positive lifetime is due once `updateAge` has passed since it was written; the window
    before expiry is empty at `updateAge` and below.
   */
  lemma RefreshWindow(s: Session, c: Config)
    requires s.expiresAt > s.updatedAt
    ensures RefreshDueAt(s, c) == s.updatedAt + c.updateAge
    ensures (exists now :: IsRefreshDue(s, c, now) && !IsExpired(s, now)) <==> GrantedLifetime(s, c) > c.updateAge
  {
    if GrantedLifetime(s, c) > c.updateAge {
      assert IsRefreshDue(s, c, RefreshDueAt(s, c)) && !IsExpired(s, RefreshDueAt(s, c));
    }
  }

  // ---------------------------------------------------------------------------
  // Assurance policies
  // ---------------------------------------------------------------------------

  datatype AssurancePolicy = AssurancePolicy(
    aal: Option<Aal>, maxAge: Option<int>, methods: Option<seq<string>>, allowRecovery: Option<bool>)

  const RECOVERY_CODE_METHOD := "recoveryCode"

  function WithoutRecovery(methods: seq<AuthenticationMethod>): (r: seq<AuthenticationMethod>)
    ensures forall e :: e in r <==> e in methods && e.name != RECOVERY_CODE_METHOD
  {
    if methods == [] then []
    else
      assert methods == [methods[0]] + methods[1..];
      (if methods[0].name == RECOVERY_CODE_METHOD then [] else [methods[0]]) + WithoutRecovery(methods[1..])
  }

  function Considered(methods: seq<AuthenticationMethod>, p: AssurancePolicy): seq<AuthenticationMethod> {
    if p.allowRecovery == Some(false) then WithoutRecovery(methods) else methods
  }

  predicate MeetsAssurance(s: Session, p: AssurancePolicy, now: int) {
    var evidence := Considered(s.methods, p);
    && (p.aal.Some? ==> DeriveAal(evidence).Rank() >= p.aal.value.Rank())
    && (p.maxAge.Some? ==> s.authenticatedAt + p.maxAge.value > now)
    && (p.methods.Some? ==> exists e :: e in evidence && !e.factor.NoFactor? && e.name in p.methods.value)
  }

  /** An entry a policy looks at: it proved something, and is no recovery code where those are refused. */
  predicate Stands(s: Session, p: AssurancePolicy, e: AuthenticationMethod) {
    e in s.methods && e.factor != NoFactor && !(p.allowRecovery == Some(false) && e.name == "recoveryCode")
  }

  /**
    A session is admitted exactly when the entries that stand meet each thing the policy
    states: for the first level one of them, for the second one that is a multi-factor
    ceremony or two that differ in factor; one by a listed method; and authentication
    less than `maxAge` ago. A policy that states nothing admits everybody.
   */
  lemma AdmittedExactly(s: Session, p: AssurancePolicy, now: int)
    ensures MeetsAssurance(s, p, now) <==>
            && (p.aal == Some(Aal1) ==> exists e :: Stands(s, p, e))
            && (p.aal == Some(Aal2) ==>
                  || (exists e :: Stands(s, p, e) && e.userVerified == Some(true))
                  || (exists d, e :: Stands(s, p, d) && Stands(s, p, e) && d.factor != e.factor))
            && (p.maxAge.Some? ==> now < s.authenticatedAt + p.maxAge.value)
            && (p.methods.Some? ==> exists e :: Stands(s, p, e) && e.name in p.methods.value)
  {
    var evidence := Considered(s.methods, p);
    assert forall e :: Counts(evidence, e) <==> Stands(s, p, e);
    LevelExactly(evidence);
    hide DeriveAal;
    if p.aal == Some(Aal2) && MeetsAssurance(s, p, now) {
      assert DeriveAal(evidence) == Aal2;
      if e :| Counts(evidence, e) && IsMultiFactorCeremony(e) {
        assert Stands(s, p, e);
      } else {
        var d, e :| Counts(evidence, d) && Counts(evidence, e) && d.factor != e.factor;
        assert Stands(s, p, d) && Stands(s, p, e);
      }
    }
    if p.aal == Some(Aal1) && MeetsAssurance(s, p, now) {
      var e :| Counts(evidence, e);
      assert Stands(s, p, e);
    }
    forall e | e in evidence && !e.factor.NoFactor? ensures Stands(s, p, e) {
      assert Counts(evidence, e);
    }
  }

  /** More evidence, restamped no earlier and judged no later, never loses an admission. */
  lemma MonotoneInEvidence(s: Session, t: Session, p: AssurancePolicy, now: int, before: int)
    requires (forall e :: e in s.methods ==> e in t.methods) && s.authenticatedAt <= t.authenticatedAt && before <= now
    requires MeetsAssurance(s, p, now)
    ensures MeetsAssurance(t, p, before)
  {
    MoreEvidenceNeverLowers(Considered(s.methods, p), Considered(t.methods, p));
  }

  predicate AtLeastAsStrict(p: AssurancePolicy, q: AssurancePolicy) {
    && (q.aal.Some? ==> p.aal.Some? && p.aal.value.Rank() >= q.aal.value.Rank())
    && (q.maxAge.Some? ==> p.maxAge.Some? && p.maxAge.value <= q.maxAge.value)
    && (q.methods.Some? ==> p.methods.Some? && forall m :: m in p.methods.value ==> m in q.methods.value)
    && (q.allowRecovery == Some(false) ==> p.allowRecovery == Some(false))
  }

  /**
    A stricter policy admits nobody a laxer one turns away; refusing recovery judges the log as
    though the codes were never in it.
   */
  lemma AntitoneInPolicy(s: Session, p: AssurancePolicy, q: AssurancePolicy, now: int)
    requires AtLeastAsStrict(p, q) && MeetsAssurance(s, p, now)
    ensures MeetsAssurance(s, q, now)
    ensures p.allowRecovery == Some(false) ==>
              MeetsAssurance(s.(methods := WithoutRecovery(s.methods)), p.(allowRecovery := None), now)
  {
    MoreEvidenceNeverLowers(Considered(s.methods, p), Considered(s.methods, q));
  }

  // ---------------------------------------------------------------------------
  // Evidence
  // ---------------------------------------------------------------------------

  datatype Evidence = Evidence(name: string, factor: Factor, phishingResistant: bool, restricted: bool,
                               userVerified: Option<bool>, completedAt: Option<int>)

  function StampEvidence(e: Evidence, now: int): AuthenticationMethod {
    var completedAt := if e.completedAt.Some? then e.completedAt.value else now;
    AuthenticationMethod(e.name, completedAt, e.factor, e.phishingResistant,
                         e.restricted, e.userVerified)
  }

  function StampAll(es: seq<Evidence>, now: int): (r: seq<AuthenticationMethod>)
    ensures |r| == |es| && forall i :: 0 <= i < |es| ==> r[i] == StampEvidence(es[i], now)
  {
    seq(|es|, i requires 0 <= i < |es| => StampEvidence(es[i], now))
  }

  function NewSession(c: Config, id: nat, token: string, userId: nat, evidence: seq<Evidence>, rememberMe: Option<bool>,
                      authenticatedAt: Option<int>, now: int, insertedAt: int): Session {
    var remember := rememberMe != Some(false);
    Session(id, Sha256(token), userId, now + Ttl(c, remember), remember, StampAll(evidence, now),
            DeriveAal(StampAll(evidence, now)),
            if authenticatedAt.Some? then authenticatedAt.value else now, insertedAt)
  }

  /**
    A new session is its user's, found by its token, and fresh for `freshAge` from the
    moment it is told it was authenticated, or else its call's. It is granted what its
    kind lasts, less the gap between the call's clock read and the insert's. It has a
    moment to be refreshed exactly when that exceeds `updateAge`; so under a valid
    configuration, and no gap, every ordinary session does, and a short one does unless
    it lasts exactly `updateAge`.
   */
  lemma EveryNewSessionHasAWindow(c: Config, id: nat, token: string, userId: nat, evidence: seq<Evidence>,
                                  rememberMe: Option<bool>, authenticatedAt: Option<int>, now: int, insertedAt: int)
    requires ValidConfig(c) && now <= insertedAt
    ensures var s := NewSession(c, id, token, userId, evidence, rememberMe, authenticatedAt, now, insertedAt);
            var granted := (if s.rememberMe then c.expiresIn else c.rememberMeDisabledExpiresIn) - (insertedAt - now);
            && (s.rememberMe <==> rememberMe != Some(false)) && s.userId == userId && s.tokenHash == Sha256(token)
            && (forall at :: IsFreshAt(s, c, at) <==>
                  at < (if authenticatedAt.Some? then authenticatedAt.value else now) + c.freshAge)
            && (granted > 0 ==> GrantedLifetime(s, c) == granted && RefreshDueAt(s, c) == insertedAt + c.updateAge)
            && (IsExpired(s, insertedAt) <==> granted <= 0)
            && ((exists at :: insertedAt <= at && IsRefreshDue(s, c, at) && !IsExpired(s, at)) <==>
                granted > c.updateAge)
            && (insertedAt == now ==>
                (granted > c.updateAge <==> s.rememberMe || c.updateAge != c.rememberMeDisabledExpiresIn))
  {
    var s := NewSession(c, id, token, userId, evidence, rememberMe, authenticatedAt, now, insertedAt);
    hide StampAll, DeriveAal;
    if GrantedLifetime(s, c) > c.updateAge && s.expiresAt > s.updatedAt {
      assert IsRefreshDue(s, c, RefreshDueAt(s, c)) && !IsExpired(s, RefreshDueAt(s, c));
    }
  }

  /**
    `stamp` is the `updated_at` the store also writes, if it does: the SQL store
    writes the time it read before it took the row lock, the store's contract none.
   */
  function Elevated(s: Session, token: string, e: Evidence, now: int, stamp: Option<int>): Session {
    var methods := s.methods + [StampEvidence(e, now)];
    s.(methods := methods, aal := DeriveAal(methods), authenticatedAt := now, tokenHash := Sha256(token),
       updatedAt := if stamp.Some? then stamp.value else s.updatedAt)
  }

  // ---------------------------------------------------------------------------
  // The machine
  // ---------------------------------------------------------------------------

  datatype Answer = Unauthorized | SessionExpired | Verified(session: Session, refreshed: bool)

  /** A `verify` call, by what it still has to do. */
  datatype Fibre =
    | Judging(session: Session)
    | Dropping(session: Session)
    | Touching(session: Session, expiresAt: int, readAt: int)
    | Done(answer: Answer)

  /** What was fixed when a session was created. */
  datatype Birth = Birth(userId: nat, rememberMe: bool)

  datatype State = State(now: int, rows: map<nat, Session>, fibres: map<nat, Fibre>, minted: set<string>,
                         retired: set<Digest>, births: map<nat, Birth>)

  datatype Step =
    | Tick(elapsed: nat)
    | Create(id: nat, token: string, userId: nat, evidence: seq<Evidence>, rememberMe: Option<bool>,
             authenticatedAt: Option<int>, at: int, insertedAt: int)
    | Elevate(id: nat, token: string, proved: Evidence, at: int, stamp: Option<int>)
    | Read(f: nat, token: string)
    | Judge(f: nat)
    | Drop(f: nat)
    | Touch(f: nat, wroteAt: int)
    | Revoke(id: nat, userId: nat)
    | RevokeAll(userId: nat)
    | RevokeOthers(userId: nat, keep: nat)
    | DeleteExpired(at: int)

  predicate Resolves(rows: map<nat, Session>, hash: Digest, id: nat) { id in rows && rows[id].tokenHash == hash }

  ghost function FindByTokenHash(rows: map<nat, Session>, hash: Digest): (r: Option<Session>)
    ensures r.Some? ==> exists id :: Resolves(rows, hash, id) && rows[id] == r.value
    ensures r.None? ==> forall id :: !Resolves(rows, hash, id)
  {
    if exists id :: Resolves(rows, hash, id) then
      var id :| Resolves(rows, hash, id);
      Some(rows[id])
    else None
  }

  function Without(rows: map<nat, Session>, gone: set<nat>): map<nat, Session> { rows - gone }

  function OfUser(rows: map<nat, Session>, userId: nat): set<nat> { set id | id in rows && rows[id].userId == userId }

  function AfterJudge(c: Config, s: Session, now: int): Fibre {
    if IsExpired(s, now) then Dropping(s)
    else if !IsRefreshDue(s, c, now) then Done(Verified(s, false))
    else Touching(s, now + GrantedLifetime(s, c), now)
  }

  /**
    An elevation that finds its row: its call read the clock, then the store did if it stamps,
    and then the row was locked.
   */
  predicate TakesEffect(s: State, step: Step, id: nat) {
    && step.Elevate? && step.id == id && id in s.rows && step.token !in s.minted
    && step.at <= s.now && (step.stamp.Some? ==> step.at <= step.stamp.value <= s.now)
  }

  ghost function Apply(c: Config, s: State, step: Step): State {
    match step
    case Tick(elapsed) => s.(now := s.now + elapsed)
    case Create(id, token, userId, evidence, rememberMe, authenticatedAt, at, insertedAt) =>
      if id in s.births || token in s.minted || !(at <= insertedAt <= s.now) then s
      else s.(rows := s.rows[id := NewSession(c, id, token, userId, evidence, rememberMe, authenticatedAt, at,
                                              insertedAt)],
              minted := s.minted + {token}, births := s.births[id := Birth(userId, rememberMe != Some(false))])
    case Elevate(id, token, proved, at, stamp) =>
      if !TakesEffect(s, step, id) then s
      else s.(rows := s.rows[id := Elevated(s.rows[id], token, proved, at, stamp)],
              minted := s.minted + {token}, retired := s.retired + {s.rows[id].tokenHash})
    case Read(f, token) =>
      if f in s.fibres then s
      else
        var found := FindByTokenHash(s.rows, Sha256(token));
        s.(fibres := s.fibres[f := if found.None? then Done(Unauthorized) else Judging(found.value)])
    case Judge(f) =>
      if !(f in s.fibres && s.fibres[f].Judging?) then s
      else s.(fibres := s.fibres[f := AfterJudge(c, s.fibres[f].session, s.now)])
    case Drop(f) =>
      if !(f in s.fibres && s.fibres[f].Dropping?) then s
      else s.(rows := Without(s.rows, {s.fibres[f].session.id}), fibres := s.fibres[f := Done(SessionExpired)])
    case Touch(f, wroteAt) =>
      if !(f in s.fibres && s.fibres[f].Touching? && s.fibres[f].readAt <= wroteAt <= s.now) then s
      else
        var id, expiresAt := s.fibres[f].session.id, s.fibres[f].expiresAt;
        if id !in s.rows then s.(fibres := s.fibres[f := Done(Unauthorized)])
        else
          var row := Touched(s.rows[id], expiresAt, wroteAt);
          s.(rows := s.rows[id := row], fibres := s.fibres[f := Done(Verified(row, true))])
    case Revoke(id, userId) =>
      s.(rows := Without(s.rows, if id in s.rows && s.rows[id].userId == userId then {id} else {}))
    case RevokeAll(userId) => s.(rows := Without(s.rows, OfUser(s.rows, userId)))
    case RevokeOthers(userId, keep) => s.(rows := Without(s.rows, OfUser(s.rows, userId) - {keep}))
    case DeleteExpired(at) => s.(rows := Without(s.rows, set id | id in s.rows && IsExpired(s.rows[id], at)))
  }

  ghost function Run(c: Config, s: State, steps: seq<Step>): State
    decreases |steps|
  {
    if steps == [] then s else Run(c, Apply(c, s, steps[0]), steps[1..])
  }

  function Initial(now: int): State { State(now, map[], map[], {}, {}, map[]) }

  // ---------------------------------------------------------------------------
  // The invariant
  // ---------------------------------------------------------------------------

  /** A stored row, or one a fibre read: its level is its log's, and it was last written no later than now. */
  predicate Sound(s: State, row: Session) {
    && row.aal == DeriveAal(row.methods)
    && row.id in s.births && s.births[row.id] == Birth(row.userId, row.rememberMe)
    && row.tokenHash.preimage in s.minted && row.updatedAt <= s.now
  }

  ghost predicate RowsGood(s: State) {
    && (forall id :: id in s.rows ==> s.rows[id].id == id && Sound(s, s.rows[id]))
    && (forall i, j :: i in s.rows && j in s.rows && s.rows[i].tokenHash == s.rows[j].tokenHash ==> i == j)
    && (forall id :: id in s.rows ==> s.rows[id].tokenHash !in s.retired)
    && (forall d :: d in s.retired ==> d.preimage in s.minted)
  }

  predicate FibreGood(c: Config, s: State, fibre: Fibre) {
    match fibre
    case Judging(row) => Sound(s, row)
    case Dropping(row) => Sound(s, row) && IsExpired(row, s.now)
    case Touching(row, expiresAt, readAt) =>
      && Sound(s, row) && row.updatedAt + c.updateAge <= readAt <= s.now
      && expiresAt - readAt == row.expiresAt - row.updatedAt
    case Done(Verified(row, _)) => Sound(s, row)
    case Done(_) => true
  }

  ghost predicate Inv(c: Config, s: State) {
    RowsGood(s) && forall f :: f in s.fibres ==> FibreGood(c, s, s.fibres[f])
  }

  // ---------------------------------------------------------------------------
  // Every step keeps it
  // ---------------------------------------------------------------------------

  predicate Extends(s: State, t: State) {
    && s.now <= t.now && s.minted <= t.minted
    && forall id :: id in s.births ==> id in t.births && t.births[id] == s.births[id]
  }

  lemma StepExtends(c: Config, s: State, step: Step)
    ensures Extends(s, Apply(c, s, step))
  {
  }

  /** A step whose rows are good and that moves only fibre `f`, to a good state, keeps the invariant. */
  lemma FibresStay(c: Config, s: State, t: State, f: nat)
    requires Inv(c, s) && Extends(s, t) && RowsGood(t)
    requires t.fibres == s.fibres
             || (f in t.fibres && t.fibres == s.fibres[f := t.fibres[f]] && FibreGood(c, t, t.fibres[f]))
    ensures Inv(c, t)
  {
    hide DeriveAal, RowsGood;
    forall g | g in s.fibres ensures FibreGood(c, t, s.fibres[g]) {
      assert FibreGood(c, s, s.fibres[g]);
    }
  }

  /** Deleting rows keeps every other row good. */
  lemma RowsStay(s: State, t: State)
    requires RowsGood(s) && Extends(s, t) && t.retired == s.retired
    requires forall id :: id in t.rows ==> id in s.rows && t.rows[id] == s.rows[id]
    ensures RowsGood(t)
  {
    hide DeriveAal;
    forall id | id in t.rows ensures t.rows[id].id == id && Sound(t, t.rows[id]) {
      assert Sound(s, s.rows[id]);
    }
  }

  /** Writing one row, under the digest it had or a fresh one, keeps every other row good. */
  lemma RowsStayOnWrite(s: State, t: State, row: Session)
    requires RowsGood(s) && Extends(s, t) && t.rows == s.rows[row.id := row] && Sound(t, row)
    requires if row.id in s.rows && s.rows[row.id].tokenHash == row.tokenHash then t.retired == s.retired
             else && row.tokenHash.preimage !in s.minted
                  && t.retired == if row.id in s.rows then s.retired + {s.rows[row.id].tokenHash} else s.retired
    ensures RowsGood(t)
  {
    hide DeriveAal;
    forall id | id in t.rows ensures t.rows[id].id == id && Sound(t, t.rows[id]) {
      assert id != row.id ==> Sound(s, s.rows[id]);
    }
    forall id | id in s.rows ensures s.rows[id].tokenHash.preimage in s.minted {
      assert Sound(s, s.rows[id]);
    }
    assert row.tokenHash == Sha256(row.tokenHash.preimage);
  }

  lemma KeepsInv(c: Config, s: State, step: Step)
    requires Inv(c, s)
    ensures Inv(c, Apply(c, s, step))
  {
    hide RefreshDueAt, IsRefreshDue, FibreGood, NewSession, Elevated, Touched, DeriveAal, Inv;
    StepExtends(c, s, step);
    var t := Apply(c, s, step);
    match step
    case Create(id, _, _, _, _, _, _, _) => KeepsOnCreate(c, s, step);
    case Elevate(id, _, _, _, _) => KeepsOnElevate(c, s, step);
    case Read(f, _) => KeepsOnFibreStep(c, s, step, f);
    case Judge(f) => KeepsOnFibreStep(c, s, step, f);
    case Drop(f) => KeepsOnFibreStep(c, s, step, f);
    case Touch(f, _) => KeepsOnTouch(c, s, step);
    case _ => KeepsOnDelete(c, s, step);
  }

  lemma KeepsOnDelete(c: Config, s: State, step: Step)
    requires Inv(c, s) && (step.Tick? || step.Revoke? || step.RevokeAll? || step.RevokeOthers? || step.DeleteExpired?)
    ensures Inv(c, Apply(c, s, step))
  {
    hide DeriveAal, FibreGood;
    var t := Apply(c, s, step);
    RowsStay(s, t);
    FibresStay(c, s, t, 0);
  }

  lemma KeepsOnCreate(c: Config, s: State, step: Step)
    requires Inv(c, s) && step.Create?
    ensures Inv(c, Apply(c, s, step))
  {
    hide DeriveAal, FibreGood;
    var t := Apply(c, s, step);
    if t != s {
      forall id | id in s.rows ensures id in s.births {
        assert Sound(s, s.rows[id]);
      }
      RowsStayOnWrite(s, t, t.rows[step.id]);
      FibresStay(c, s, t, 0);
    }
  }

  lemma KeepsOnElevate(c: Config, s: State, step: Step)
    requires Inv(c, s) && step.Elevate?
    ensures Inv(c, Apply(c, s, step))
  {
    hide DeriveAal, FibreGood;
    var t := Apply(c, s, step);
    if t != s {
      assert Sound(s, s.rows[step.id]);
      RowsStayOnWrite(s, t, t.rows[step.id]);
      FibresStay(c, s, t, 0);
    }
  }

  lemma KeepsOnFibreStep(c: Config, s: State, step: Step, f: nat)
    requires Inv(c, s) && (step.Read? || step.Judge? || step.Drop?) && f == step.f
    ensures Inv(c, Apply(c, s, step))
  {
    hide DeriveAal;
    var t := Apply(c, s, step);
    RowsStay(s, t);
    FibresStay(c, s, t, f);
  }

  lemma KeepsOnTouch(c: Config, s: State, step: Step)
    requires Inv(c, s) && step.Touch?
    ensures Inv(c, Apply(c, s, step))
  {
    hide DeriveAal;
    var t := Apply(c, s, step);
    if t.rows == s.rows {
      RowsStay(s, t);
    } else {
      var id := s.fibres[step.f].session.id;
      assert Sound(s, s.rows[id]);
      RowsStayOnWrite(s, t, t.rows[id]);
    }
    FibresStay(c, s, t, step.f);
  }

  lemma {:induction false} RunKeepsInv(c: Config, s: State, steps: seq<Step>)
    requires Inv(c, s)
    ensures Inv(c, Run(c, s, steps)) && Extends(s, Run(c, s, steps))
    decreases |steps|
  {
    hide Apply, FibreGood, RowsGood;
    if steps != [] {
      KeepsInv(c, s, steps[0]);
      StepExtends(c, s, steps[0]);
      RunKeepsInv(c, Apply(c, s, steps[0]), steps[1..]);
    }
  }

  // ---------------------------------------------------------------------------
  // Over every run
  // ---------------------------------------------------------------------------

  /** In every reachable store the level is the log's, and so it is in every answer a `verify` gives. */
  lemma LevelIsTheLogs(c: Config, now: int, steps: seq<Step>, id: nat, f: nat)
    ensures var s := Run(c, Initial(now), steps);
            && (id in s.rows ==> s.rows[id].id == id && s.rows[id].aal == DeriveAal(s.rows[id].methods))
            && (f in s.fibres && s.fibres[f].Done? && s.fibres[f].answer.Verified? ==>
                  s.fibres[f].answer.session.aal == DeriveAal(s.fibres[f].answer.session.methods))
  {
    hide Apply, DeriveAal;
    RunKeepsInv(c, Initial(now), steps);
    var s := Run(c, Initial(now), steps);
    assert f in s.fibres ==> FibreGood(c, s, s.fibres[f]);
  }

  /** The evidence of the elevations of `id` that committed, in commit order. */
  ghost function Proved(c: Config, s: State, steps: seq<Step>, id: nat): seq<AuthenticationMethod>
    decreases |steps|
  {
    if steps == [] then []
    else (if TakesEffect(s, steps[0], id) then [StampEvidence(steps[0].proved, steps[0].at)] else [])
         + Proved(c, Apply(c, s, steps[0]), steps[1..], id)
  }

  /** What a run does to a row that survives it: the log grows by every elevation and nothing else changes it. */
  predicate GrownBy(row: Session, end: Session, proved: seq<AuthenticationMethod>) {
    && end.methods == row.methods + proved && end.aal.Rank() >= row.aal.Rank()
    && end.id == row.id && end.userId == row.userId && end.rememberMe == row.rememberMe
    && (proved == [] ==> end == row.(expiresAt := end.expiresAt, updatedAt := end.updatedAt))
  }

  /**
    No elevation is lost to another or to a refresh; the level never falls; only elevation moves
    `authenticatedAt` or the token.
   */
  lemma {:induction false} LogOnlyGrows(c: Config, s: State, steps: seq<Step>, id: nat)
    requires Inv(c, s) && id in s.rows && id in Run(c, s, steps).rows
    ensures GrownBy(s.rows[id], Run(c, s, steps).rows[id], Proved(c, s, steps, id))
    decreases |steps|
  {
    hide DeriveAal, FibreGood;
    var row := s.rows[id];
    if steps == [] {
      assert row.methods + [] == row.methods;
    } else {
      hide Apply;
      var t := Apply(c, s, steps[0]);
      KeepsInv(c, s, steps[0]);
      LogStep(c, s, steps[0], id);
      if id !in t.rows {
        GoneForGood(c, t, steps[1..], id);
        assert false;
      }
      LogOnlyGrows(c, t, steps[1..], id);
      var first := if TakesEffect(s, steps[0], id) then [StampEvidence(steps[0].proved, steps[0].at)] else [];
      var rest := Proved(c, t, steps[1..], id);
      assert row.methods + (first + rest) == (row.methods + first) + rest;
    }
  }

  /**
    An elevation freshens, from the moment its call read the clock and for `freshAge`; its
    entry says what was proved, timed by the ceremony or else by that reading; and it moves
    nothing else but the level, the token and the store's stamp.
   */
  lemma ElevationFreshens(c: Config, s: State, step: Step, at: int)
    requires step.Elevate? && TakesEffect(s, step, step.id)
    ensures var row, up := s.rows[step.id], Apply(c, s, step).rows[step.id];
            && (IsFreshAt(up, c, at) <==> at < step.at + c.freshAge)
            && up.methods == row.methods + [up.methods[|row.methods|]]
            && var entry, e := up.methods[|row.methods|], step.proved;
            && entry.name == e.name && entry.factor == e.factor && entry.userVerified == e.userVerified
            && entry.phishingResistant == e.phishingResistant && entry.restricted == e.restricted
            && entry.completedAt == (if e.completedAt.Some? then e.completedAt.value else step.at)
            && up == row.(methods := up.methods, aal := DeriveAal(up.methods), authenticatedAt := step.at,
                          tokenHash := Sha256(step.token), updatedAt := up.updatedAt)
            && up.updatedAt == (if step.stamp.Some? then step.stamp.value else row.updatedAt)
  {
    hide DeriveAal;
  }

  /** Only an elevation freshens: whatever refreshes happen meanwhile, a session is as fresh as it was. */
  lemma RefreshDoesNotFreshen(c: Config, s: State, steps: seq<Step>, id: nat, now: int)
    requires Inv(c, s) && id in s.rows && id in Run(c, s, steps).rows && Proved(c, s, steps, id) == []
    ensures IsFreshAt(Run(c, s, steps).rows[id], c, now) <==> now < s.rows[id].authenticatedAt + c.freshAge
  {
    LogOnlyGrows(c, s, steps, id);
  }

  lemma LogStep(c: Config, s: State, step: Step, id: nat)
    requires Inv(c, s) && id in s.rows
    ensures id in Apply(c, s, step).births
    ensures id in Apply(c, s, step).rows ==>
              GrownBy(s.rows[id], Apply(c, s, step).rows[id],
                      if TakesEffect(s, step, id) then [StampEvidence(step.proved, step.at)] else [])
  {
    hide DeriveAal, FibreGood;
    assert Sound(s, s.rows[id]);
    if TakesEffect(s, step, id) {
      MoreEvidenceNeverLowers(s.rows[id].methods, s.rows[id].methods + [StampEvidence(step.proved, step.at)]);
    } else {
      assert s.rows[id].methods + [] == s.rows[id].methods;
    }
  }

  lemma {:induction false} GoneForGood(c: Config, s: State, steps: seq<Step>, id: nat)
    requires id in s.births && id !in s.rows
    ensures id !in Run(c, s, steps).rows
    decreases |steps|
  {
    if steps != [] {
      assert id in Apply(c, s, steps[0]).births && id !in Apply(c, s, steps[0]).rows;
      hide Apply;
      GoneForGood(c, Apply(c, s, steps[0]), steps[1..], id);
    }
  }

  /**
    A session goes only by a call that found it expired, by a revocation that names its user
    and covers it, or by a sweep of what has expired; and a revocation takes all it covers.
   */
  lemma SessionsGoBy(c: Config, s: State, step: Step, id: nat)
    requires id in s.rows
    ensures var row, after := s.rows[id], Apply(c, s, step).rows;
            var covered := match step
              case Revoke(named, userId) => named == id && userId == row.userId
              case RevokeAll(userId) => userId == row.userId
              case RevokeOthers(userId, keep) => userId == row.userId && keep != id
              case DeleteExpired(at) => row.expiresAt <= at
              case Drop(f) => f in s.fibres && s.fibres[f].Dropping? && s.fibres[f].session.id == id
              case _ => false;
            && (id !in after <==> covered)
            && (step.Revoke? || step.RevokeAll? || step.RevokeOthers? || step.DeleteExpired? ==>
                  id in after ==> after[id] == row)
  {
  }

  /** The digest an elevation replaced never resolves again; the new one resolves to the same session at once. */
  lemma ReplacedNeverResolves(c: Config, now: int, steps: seq<Step>, step: Step, more: seq<Step>)
    requires step.Elevate? && TakesEffect(Run(c, Initial(now), steps), step, step.id)
    ensures var s := Run(c, Initial(now), steps);
            var t := Apply(c, s, step);
            && FindByTokenHash(Run(c, t, more).rows, s.rows[step.id].tokenHash) == None
            && FindByTokenHash(t.rows, Sha256(step.token)) == Some(t.rows[step.id])
            && t.rows[step.id].id == step.id
  {
    var s := Run(c, Initial(now), steps);
    var t := Apply(c, s, step);
    RunKeepsInv(c, Initial(now), steps);
    KeepsInv(c, s, step);
    hide DeriveAal, FibreGood;
    assert t.rows[step.id].tokenHash == Sha256(step.token) && s.rows[step.id].tokenHash in t.retired;
    hide Apply;
    FindsTheHolder(t, step.id);
    RunKeepsInv(c, t, more);
    RetiredStays(c, t, more, s.rows[step.id].tokenHash);
  }

  lemma FindsTheHolder(s: State, id: nat)
    requires RowsGood(s) && id in s.rows
    ensures FindByTokenHash(s.rows, s.rows[id].tokenHash) == Some(s.rows[id])
  {
    hide Sound;
    assert Resolves(s.rows, s.rows[id].tokenHash, id);
  }

  lemma {:induction false} RetiredStays(c: Config, s: State, steps: seq<Step>, d: Digest)
    requires d in s.retired
    ensures d in Run(c, s, steps).retired
    decreases |steps|
  {
    if steps != [] {
      assert d in Apply(c, s, steps[0]).retired;
      hide Apply;
      RetiredStays(c, Apply(c, s, steps[0]), steps[1..], d);
    }
  }

  // ---------------------------------------------------------------------------
  // Lifetimes over every run
  // ---------------------------------------------------------------------------

  predicate WithinGrant(c: Config, row: Session) { row.expiresAt - row.updatedAt <= Ttl(c, row.rememberMe) }

  predicate FibreWithinGrant(c: Config, fibre: Fibre) {
    match fibre
    case Judging(row) => WithinGrant(c, row)
    case Touching(row, _, _) => WithinGrant(c, row)
    case _ => true
  }

  ghost predicate AllWithinGrant(c: Config, s: State) {
    && (forall id :: id in s.rows ==> WithinGrant(c, s.rows[id]))
    && (forall f :: f in s.fibres ==> FibreWithinGrant(c, s.fibres[f]))
  }

  /**
    What keeps an elevation within the grant: a stamp no earlier than the latest
    moment at which the row's kind could have been granted the expiry it has.
   */
  predicate Orderly(c: Config, s: State, step: Step) {
    step.Elevate? && TakesEffect(s, step, step.id) && step.stamp.Some? ==>
      s.rows[step.id].expiresAt - Ttl(c, s.rows[step.id].rememberMe) <= step.stamp.value
  }

  ghost predicate OrderlyRun(c: Config, s: State, steps: seq<Step>)
    decreases |steps|
  {
    steps != [] ==> Orderly(c, s, steps[0]) && OrderlyRun(c, Apply(c, s, steps[0]), steps[1..])
  }

  /** At no point of a run does any row, stored or read, last longer than its kind is granted. */
  ghost predicate WithinGrantThroughout(c: Config, s: State, steps: seq<Step>)
    decreases |steps|
  {
    && AllWithinGrant(c, s)
    && (steps != [] ==> WithinGrantThroughout(c, Apply(c, s, steps[0]), steps[1..]))
  }

  /** However calls interleave, a short session is never promoted, exactly when every elevation's stamp is in order. */
  lemma {:induction false} NeverPromoted(c: Config, s: State, steps: seq<Step>)
    requires ValidConfig(c) && Inv(c, s) && AllWithinGrant(c, s)
    ensures WithinGrantThroughout(c, s, steps) <==> OrderlyRun(c, s, steps)
    decreases |steps|
  {
    hide Apply, FibreGood, FibreWithinGrant, AllWithinGrant, RowsGood, Orderly;
    if steps != [] {
      KeepsInv(c, s, steps[0]);
      GrantStepExactly(c, s, steps[0]);
      if Orderly(c, s, steps[0]) {
        NeverPromoted(c, Apply(c, s, steps[0]), steps[1..]);
      } else {
        NotWithinFromTheStart(c, Apply(c, s, steps[0]), steps[1..]);
      }
    }
  }

  lemma NotWithinFromTheStart(c: Config, s: State, steps: seq<Step>)
    requires !AllWithinGrant(c, s)
    ensures !WithinGrantThroughout(c, s, steps)
  {
  }

  lemma GrantStepExactly(c: Config, s: State, step: Step)
    requires ValidConfig(c) && Inv(c, s) && AllWithinGrant(c, s)
    ensures AllWithinGrant(c, Apply(c, s, step)) <==> Orderly(c, s, step)
  {
    hide DeriveAal, StampAll, RowsGood, FibreGood;
    var t := Apply(c, s, step);
    if Orderly(c, s, step) {
      forall id | id in t.rows ensures WithinGrant(c, t.rows[id]) {
        assert id in s.rows ==> WithinGrant(c, s.rows[id]);
        if step.Touch? && t.rows != s.rows {
          TouchWithinGrant(c, s, step);
        }
      }
      forall f | f in t.fibres ensures FibreWithinGrant(c, t.fibres[f]) {
        assert f in s.fibres ==> FibreWithinGrant(c, s.fibres[f]);
        if step.Read? {
          FoundWithinGrant(c, s, step);
        }
      }
    } else {
      assert !WithinGrant(c, t.rows[step.id]);
    }
  }

  lemma TouchWithinGrant(c: Config, s: State, step: Step)
    requires Inv(c, s) && AllWithinGrant(c, s) && step.Touch? && step.f in s.fibres && s.fibres[step.f].Touching?
    requires s.fibres[step.f].session.id in s.rows && s.fibres[step.f].readAt <= step.wroteAt
    ensures WithinGrant(c, Touched(s.rows[s.fibres[step.f].session.id], s.fibres[step.f].expiresAt, step.wroteAt))
  {
    hide DeriveAal;
    assert FibreGood(c, s, s.fibres[step.f]) && FibreWithinGrant(c, s.fibres[step.f]);
    assert Sound(s, s.rows[s.fibres[step.f].session.id]);
  }

  lemma FoundWithinGrant(c: Config, s: State, step: Step)
    requires AllWithinGrant(c, s) && step.Read?
    ensures var found := FindByTokenHash(s.rows, Sha256(step.token)); found.Some? ==> WithinGrant(c, found.value)
  {
  }

  predicate UnderTheLock(s: State, step: Step) {
    step.Elevate? && step.id in s.rows && (step.stamp.None? || s.rows[step.id].updatedAt <= step.stamp.value)
  }

  /** From an empty store; a stamp read under the row's lock, or none, is always in order. */
  lemma InitialWithinGrant(c: Config, now: int, steps: seq<Step>, step: Step)
    requires ValidConfig(c)
    ensures WithinGrantThroughout(c, Initial(now), steps) <==> OrderlyRun(c, Initial(now), steps)
    ensures var s := Run(c, Initial(now), steps);
            OrderlyRun(c, Initial(now), steps) && UnderTheLock(s, step) ==> Orderly(c, s, step)
  {
    NeverPromoted(c, Initial(now), steps);
    if OrderlyRun(c, Initial(now), steps) {
      WithinAtTheEnd(c, Initial(now), steps);
      var s := Run(c, Initial(now), steps);
      if step.Elevate? && step.id in s.rows {
        assert WithinGrant(c, s.rows[step.id]);
      }
    }
  }

  lemma {:induction false} WithinAtTheEnd(c: Config, s: State, steps: seq<Step>)
    requires WithinGrantThroughout(c, s, steps)
    ensures AllWithinGrant(c, Run(c, s, steps))
    decreases |steps|
  {
    hide Apply, AllWithinGrant;
    if steps != [] {
      WithinAtTheEnd(c, Apply(c, s, steps[0]), steps[1..]);
    }
  }

  /** Stamping an elevation lengthens what the next refresh grants exactly when the stamp is older than the row. */
  lemma StampedElevation(c: Config, row: Session, token: string, e: Evidence, now: int, stamp: Option<int>)
    requires row.updatedAt < row.expiresAt && (stamp.Some? ==> stamp.value < row.expiresAt)
    ensures var up := Elevated(row, token, e, now, stamp);
            && (GrantedLifetime(up, c) > GrantedLifetime(row, c) <==> stamp.Some? && stamp.value < row.updatedAt)
            && (GrantedLifetime(up, c) == GrantedLifetime(row, c) <==> stamp.None? || stamp.value == row.updatedAt)
            && ((exists at :: IsRefreshDue(up, c, at) && !IsExpired(up, at))
                  <==> row.expiresAt - (if stamp.Some? then stamp.value else row.updatedAt) > c.updateAge)
  {
    RefreshWindow(Elevated(row, token, e, now, stamp), c);
  }

  /** One short session, its row `row`, a verify call at `fibre` and the elevation's token `b` not minted yet. */
  function OneShort(now: int, row: Session, fibres: map<nat, Fibre>): State {
    State(now, map[0 := row], fibres, {"a"}, {}, map[0 := Birth(0, false)])
  }

  function ShortSession(expiresAt: int, updatedAt: int): Session {
    Session(0, Sha256("a"), 0, expiresAt, false, [], DeriveAal([]), 0, updatedAt)
  }

  const ShortConfig := Config(100, 5, 1, 10)

  lemma RefreshedAtSix()
    ensures var was := ShortSession(10, 0);
            && Apply(ShortConfig, Initial(0), Create(0, "a", 0, [], Some(false), None, 0, 0)) == OneShort(0, was, map[])
            && Apply(ShortConfig, OneShort(0, was, map[]), Tick(6)) == OneShort(6, was, map[])
            && Apply(ShortConfig, OneShort(6, was, map[]), Read(0, "a")) == OneShort(6, was, map[0 := Judging(was)])
            && Apply(ShortConfig, OneShort(6, was, map[0 := Judging(was)]), Judge(0))
               == OneShort(6, was, map[0 := Touching(was, 16, 6)])
            && Apply(ShortConfig, OneShort(6, was, map[0 := Touching(was, 16, 6)]), Touch(0, 6))
               == OneShort(6, ShortSession(16, 6), map[0 := Done(Verified(ShortSession(16, 6), true))])
  {
    var s := OneShort(6, ShortSession(10, 0), map[]);
    assert Resolves(s.rows, Sha256("a"), 0);
  }

  lemma ElevatedLate(e: Evidence, fibres: map<nat, Fibre>)
    ensures var s := Apply(ShortConfig, OneShort(6, ShortSession(16, 6), fibres), Elevate(0, "b", e, 3, Some(3)));
            0 in s.rows && s.rows[0].expiresAt == 16 && s.rows[0].updatedAt == 3 && !s.rows[0].rememberMe
  {
    hide DeriveAal;
    assert "a"[0] != "b"[0];
    assert "b" !in {"a"};
  }

  /**
    The other half: an elevation that waits for the lock behind a refresh writes an older stamp
    and promotes a short session.
   */
  lemma LateStampPromotes(e: Evidence)
    ensures var c := ShortConfig;
            var steps := [Create(0, "a", 0, [], Some(false), None, 0, 0), Tick(6), Read(0, "a"), Judge(0), Touch(0, 6),
                          Elevate(0, "b", e, 3, Some(3))];
            && ValidConfig(c) && 0 in Run(c, Initial(0), steps).rows
            && GrantedLifetime(Run(c, Initial(0), steps).rows[0], c) > Ttl(c, false)
  {
    hide Apply, DeriveAal;
    var c := ShortConfig;
    var steps := [Create(0, "a", 0, [], Some(false), None, 0, 0), Tick(6), Read(0, "a"), Judge(0), Touch(0, 6),
                  Elevate(0, "b", e, 3, Some(3))];
    var was, row := ShortSession(10, 0), ShortSession(16, 6);
    var touched := OneShort(6, row, map[0 := Done(Verified(row, true))]);
    RefreshedAtSix();
    ElevatedLate(e, touched.fibres);
    RunsThrough(c, steps,
                [Initial(0), OneShort(0, was, map[]), OneShort(6, was, map[]), OneShort(6, was, map[0 := Judging(was)]),
                           OneShort(6, was, map[0 := Touching(was, 16, 6)]), touched, Apply(c, touched, steps[5])]);
  }

  lemma {:induction false} RunsThrough(c: Config, steps: seq<Step>, states: seq<State>)
    requires |states| == |steps| + 1
    requires forall i :: 0 <= i < |steps| ==> states[i + 1] == Apply(c, states[i], steps[i])
    ensures Run(c, states[0], steps) == states[|steps|]
    decreases |steps|
  {
    hide Apply;
    if steps != [] {
      RunsThrough(c, steps[1..], states[1..]);
    }
  }

  // ---------------------------------------------------------------------------
  // One caller, request after request
  // ---------------------------------------------------------------------------

  /** The two clock reads of one `verify`. */
  datatype Call = Call(decideAt: int, writeAt: int)

  predicate Refreshes(c: Config, row: Session, call: Call) {
    !IsExpired(row, call.decideAt) && IsRefreshDue(row, c, call.decideAt)
  }

  function AfterCall(c: Config, row: Session, call: Call): Session {
    if Refreshes(c, row, call) then Touched(row, call.decideAt + GrantedLifetime(row, c), call.writeAt) else row
  }

  function Refreshed(c: Config, row: Session, calls: seq<Call>): seq<Call>
    decreases |calls|
  {
    if calls == [] then []
    else
      var first := if Refreshes(c, row, calls[0]) then [calls[0]] else [];
      first + Refreshed(c, AfterCall(c, row, calls[0]), calls[1..])
  }

  function AfterCalls(c: Config, row: Session, calls: seq<Call>): Session
    decreases |calls|
  {
    if calls == [] then row else AfterCalls(c, AfterCall(c, row, calls[0]), calls[1..])
  }

  function GapsOf(calls: seq<Call>): int
    decreases |calls|
  {
    if calls == [] then 0 else calls[0].writeAt - calls[0].decideAt + GapsOf(calls[1..])
  }

  predicate InOrder(start: int, calls: seq<Call>)
    decreases |calls|
  {
    calls != [] ==> start <= calls[0].decideAt <= calls[0].writeAt && InOrder(calls[0].writeAt, calls[1..])
  }

  /**
    Serial refreshes are at least `updateAge` apart, the first from the row's last write, and
    each costs the lifetime its gap.
   */
  lemma {:induction false} RefreshesApart(c: Config, row: Session, calls: seq<Call>, i: nat)
    requires c.updateAge > 0 && InOrder(row.updatedAt, calls) && row.updatedAt < row.expiresAt
    requires i < |Refreshed(c, row, calls)|
    ensures var touches := Refreshed(c, row, calls);
            (if i == 0 then row.updatedAt else touches[i - 1].writeAt) + c.updateAge <= touches[i].decideAt
    decreases |calls|
  {
    var next := AfterCall(c, row, calls[0]);
    OrderKept(row.updatedAt, calls[0].writeAt, calls[1..]);
    if next.updatedAt >= next.expiresAt {
      ExpiredStays(c, next, calls[1..]);
    } else if Refreshes(c, row, calls[0]) {
      assert Refreshed(c, row, calls) == [calls[0]] + Refreshed(c, next, calls[1..]);
      if i > 0 {
        RefreshesApart(c, next, calls[1..], i - 1);
      }
    } else {
      RefreshesApart(c, next, calls[1..], i);
    }
  }

  lemma OrderKept(start: int, later: int, calls: seq<Call>)
    requires start <= later && InOrder(later, calls)
    ensures InOrder(start, calls)
  {
  }

  lemma {:induction false} ExpiredStays(c: Config, row: Session, calls: seq<Call>)
    requires InOrder(row.updatedAt, calls) && row.expiresAt <= row.updatedAt
    ensures Refreshed(c, row, calls) == [] && AfterCalls(c, row, calls) == row
    decreases |calls|
  {
    if calls != [] {
      OrderKept(row.updatedAt, calls[0].writeAt, calls[1..]);
      ExpiredStays(c, row, calls[1..]);
    }
  }

  /** After any serial run the lifetime is the one it started with less every gap of its refreshes. */
  lemma {:induction false} LifetimeAfterCalls(c: Config, row: Session, calls: seq<Call>)
    requires InOrder(row.updatedAt, calls)
    ensures var end := AfterCalls(c, row, calls);
            end.expiresAt - end.updatedAt == row.expiresAt - row.updatedAt - GapsOf(Refreshed(c, row, calls))
    decreases |calls|
  {
    if calls != [] {
      var next := AfterCall(c, row, calls[0]);
      OrderKept(row.updatedAt, calls[0].writeAt, calls[1..]);
      LifetimeAfterCalls(c, next, calls[1..]);
      var rest := Refreshed(c, next, calls[1..]);
      if Refreshes(c, row, calls[0]) {
        assert ([calls[0]] + rest)[1..] == rest;
      } else {
        assert [] + rest == rest;
      }
    }
  }

  // ---------------------------------------------------------------------------
  // The service, call by call
  // ---------------------------------------------------------------------------

  ghost function ReplyTo(c: Config, rows: map<nat, Session>, token: string, call: Call): Answer {
    match FindByTokenHash(rows, Sha256(token))
    case None => Unauthorized
    case Some(row) =>
      if IsExpired(row, call.decideAt) then SessionExpired
      else Verified(AfterCall(c, row, call), Refreshes(c, row, call))
  }

  ghost function RowsAfterVerify(c: Config, rows: map<nat, Session>, token: string, call: Call): map<nat, Session> {
    match FindByTokenHash(rows, Sha256(token))
    case None => rows
    case Some(row) =>
      if IsExpired(row, call.decideAt) then Without(rows, {row.id}) else rows[row.id := AfterCall(c, row, call)]
  }

  /** The primary key and the unique index on `token_hash`. */
  ghost predicate Keyed(rows: map<nat, Session>) {
    && (forall id :: id in rows ==> rows[id].id == id)
    && (forall i, j :: i in rows && j in rows && rows[i].tokenHash == rows[j].tokenHash ==> i == j)
  }

  class SessionsService {
    const config: Config
    var rows: map<nat, Session>

    constructor (config: Config)
      ensures this.config == config && rows == map[]
    {
      this.config := config;
      rows := map[];
    }

    method CreateUnchecked(id: nat, token: string, userId: nat, evidence: seq<Evidence>, rememberMe: Option<bool>,
                           authenticatedAt: Option<int>, now: int, insertedAt: int) returns (session: Session)
      requires Keyed(rows) && id !in rows && forall i :: i in rows ==> rows[i].tokenHash != Sha256(token)
      modifies this
      ensures Keyed(rows) && rows == old(rows)[id := session]
      ensures session == NewSession(config, id, token, userId, evidence, rememberMe, authenticatedAt, now, insertedAt)
      ensures session.aal == DeriveAal(session.methods) && FindByTokenHash(rows, Sha256(token)) == Some(session)
    {
      session := NewSession(config, id, token, userId, evidence, rememberMe, authenticatedAt, now, insertedAt);
      rows := rows[id := session];
      assert Resolves(rows, Sha256(token), id);
    }

    /** `None` when the session was revoked meanwhile. The log appended to is the stored one, not the caller's. */
    method Elevate(held: Session, token: string, evidence: Evidence, now: int, stamp: Option<int>)
        returns (session: Option<Session>)
      requires Keyed(rows) && forall i :: i in rows ==> rows[i].tokenHash != Sha256(token)
      modifies this
      ensures Keyed(rows)
      ensures held.id !in old(rows) ==> session.None? && rows == old(rows)
      ensures held.id in old(rows) ==>
                && session == Some(Elevated(old(rows)[held.id], token, evidence, now, stamp))
                && rows == old(rows)[held.id := session.value]
    {
      if held.id !in rows {
        return None;
      }
      var row := Elevated(rows[held.id], token, evidence, now, stamp);
      rows := rows[held.id := row];
      return Some(row);
    }

    method Verify(token: string, call: Call) returns (answer: Answer)
      requires Keyed(rows)
      modifies this
      ensures Keyed(rows)
      ensures answer == ReplyTo(config, old(rows), token, call)
      ensures rows == RowsAfterVerify(config, old(rows), token, call)
    {
      if id :| id in rows && rows[id].tokenHash == Sha256(token) {
        var session := rows[id];
        assert Resolves(rows, Sha256(token), id);
        if IsExpired(session, call.decideAt) {
          rows := rows - {id};
          return SessionExpired;
        }
        if !IsRefreshDue(session, config, call.decideAt) {
          assert rows == rows[id := session];
          return Verified(session, false);
        }
        var expiresAt := call.decideAt + GrantedLifetime(session, config);
        rows := rows[id := Touched(session, expiresAt, call.writeAt)];
        return Verified(rows[id], true);
      }
      assert forall id :: !Resolves(rows, Sha256(token), id);
      return Unauthorized;
    }

    method DeleteById(id: nat, userId: nat) returns (removed: bool)
      requires Keyed(rows)
      modifies this
      ensures Keyed(rows)
      ensures removed <==> id in old(rows) && old(rows)[id].userId == userId
      ensures rows == Without(old(rows), if removed then {id} else {})
    {
      removed := id in rows && rows[id].userId == userId;
      rows := Without(rows, if removed then {id} else {});
    }

    method RevokeAll(userId: nat) returns (count: nat)
      requires Keyed(rows)
      modifies this
      ensures Keyed(rows) && rows == Without(old(rows), OfUser(old(rows), userId))
      ensures forall id :: id in rows <==> id in old(rows) && old(rows)[id].userId != userId
      ensures count == |OfUser(old(rows), userId)|
    {
      count := |OfUser(rows, userId)|;
      rows := Without(rows, OfUser(rows, userId));
    }

    method RevokeOthers(userId: nat, current: nat) returns (count: nat)
      requires Keyed(rows)
      modifies this
      ensures Keyed(rows) && rows == Without(old(rows), OfUser(old(rows), userId) - {current})
      ensures forall id :: id in rows <==> id in old(rows) && (old(rows)[id].userId != userId || id == current)
      ensures count == |OfUser(old(rows), userId) - {current}|
    {
      count := |OfUser(rows, userId) - {current}|;
      rows := Without(rows, OfUser(rows, userId) - {current});
    }
  }

  /**
    What one undisturbed call answers and leaves. A token nobody holds changes nothing. An
    expired row goes. A row with a lifetime is answered as it is until `updateAge` after it
    was written, and then given that lifetime again from the call's reading.
   */
  lemma VerifiedExactly(c: Config, rows: map<nat, Session>, token: string, call: Call, id: nat)
    requires Keyed(rows)
    ensures (forall i :: i in rows ==> rows[i].tokenHash != Sha256(token)) ==>
              ReplyTo(c, rows, token, call) == Unauthorized && RowsAfterVerify(c, rows, token, call) == rows
    ensures id in rows && rows[id].tokenHash == Sha256(token) ==>
              var row, answer, after := rows[id], ReplyTo(c, rows, token, call), RowsAfterVerify(c, rows, token, call);
              var again := row.(expiresAt := call.decideAt + (row.expiresAt - row.updatedAt),
                                updatedAt := call.writeAt);
              && (row.expiresAt <= call.decideAt ==> answer == SessionExpired && after == rows - {id})
              && (call.decideAt < row.expiresAt && row.updatedAt < row.expiresAt ==>
                  if call.decideAt < row.updatedAt + c.updateAge then answer == Verified(row, false) && after == rows
                  else answer == Verified(again, true) && after == rows[id := again])
  {
    if id in rows && rows[id].tokenHash == Sha256(token) {
      assert Resolves(rows, Sha256(token), id);
      assert rows[id := rows[id]] == rows;
    }
  }

  /** Undisturbed, a fibre's steps leave the rows and the answer that `Verify` does. */
  lemma VerifyIsARun(c: Config, s: State, f: nat, token: string, call: Call)
    requires Keyed(s.rows) && f !in s.fibres && s.now == call.decideAt <= call.writeAt
    ensures var end :=
              Run(c, s, [Read(f, token), Judge(f), Tick(call.writeAt - call.decideAt), Drop(f),
                         Touch(f, call.writeAt)]);
            && end.rows == RowsAfterVerify(c, s.rows, token, call)
            && end.fibres == s.fibres[f := Done(ReplyTo(c, s.rows, token, call))]
  {
    hide Apply, Run, FindByTokenHash, IsExpired, AfterCall, Refreshes;
    ReadStep(c, s, f, token);
    var gap := call.writeAt - call.decideAt;
    var steps := [Read(f, token), Judge(f), Tick(gap), Drop(f), Touch(f, call.writeAt)];
    RunFive(c, s, steps);
    var found := FindByTokenHash(s.rows, Sha256(token));
    var read := Apply(c, s, steps[0]);
    if found.Some? {
      var id :| Resolves(s.rows, Sha256(token), id) && s.rows[id] == found.value;
      JudgeAndWrite(c, read, f, gap);
    } else {
      NothingOwed(c, read, f, gap);
    }
  }

  lemma ReadStep(c: Config, s: State, f: nat, token: string)
    requires f !in s.fibres
    ensures var found := FindByTokenHash(s.rows, Sha256(token));
            Apply(c, s, Read(f, token))
              == s.(fibres := s.fibres[f := if found.None? then Done(Unauthorized) else Judging(found.value)])
  {
    hide FindByTokenHash;
  }

  lemma NothingOwed(c: Config, s: State, f: nat, gap: nat)
    requires f in s.fibres && s.fibres[f].Done?
    ensures var end := Apply(c, Apply(c, Apply(c, Apply(c, s, Judge(f)), Tick(gap)), Drop(f)), Touch(f, s.now + gap));
            end.rows == s.rows && end.fibres == s.fibres
  {
  }

  lemma JudgeAndWrite(c: Config, s: State, f: nat, gap: nat)
    requires Keyed(s.rows) && f in s.fibres && s.fibres[f].Judging?
    requires s.fibres[f].session.id in s.rows && s.rows[s.fibres[f].session.id] == s.fibres[f].session
    ensures var end := Apply(c, Apply(c, Apply(c, Apply(c, s, Judge(f)), Tick(gap)), Drop(f)), Touch(f, s.now + gap));
            var row, call := s.fibres[f].session, Call(s.now, s.now + gap);
            if IsExpired(row, s.now)
            then end.rows == Without(s.rows, {row.id}) && end.fibres == s.fibres[f := Done(SessionExpired)]
            else && end.rows == s.rows[row.id := AfterCall(c, row, call)]
                 && end.fibres == s.fibres[f := Done(Verified(AfterCall(c, row, call), Refreshes(c, row, call)))]
  {
    hide RefreshDueAt, GrantedLifetime, DeriveAal;
    assert s.rows[s.fibres[f].session.id := s.fibres[f].session] == s.rows;
  }

  lemma RunFive(c: Config, s: State, steps: seq<Step>)
    requires |steps| == 5
    ensures Run(c, s, steps)
            == Apply(c, Apply(c, Apply(c, Apply(c, Apply(c, s, steps[0]), steps[1]), steps[2]), steps[3]), steps[4])
  {
    hide Apply;
    var s1 := Apply(c, s, steps[0]);
    var s2 := Apply(c, s1, steps[1]);
    var s3 := Apply(c, s2, steps[2]);
    var s4 := Apply(c, s3, steps[3]);
    RunsThrough(c, steps, [s, s1, s2, s3, s4, Apply(c, s4, steps[4])]);
  }
}
