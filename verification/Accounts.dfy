/**
  Resolving a provider identity to a user. Reads and writes of one call interleave
  with those of others; a unique index refuses the loser of a race, and the call
  resolves once more. A transaction is one step that commits or leaves no trace.
 */
module Accounts {
  import opened Prelude

  datatype User = User(id: nat, name: string, email: string, emailVerified: bool)

  datatype Account = Account(id: nat, issuer: string, accountId: string, providerId: string, userId: nat,
                             tokens: Option<string>, passwordHash: Option<string>)

  /**
    What a provider reports of a person. The tokens it issues differ from one callback to the
    next and travel beside it.
   */
  datatype OAuthIdentity = OAuthIdentity(providerId: string, issuer: string, accountId: string, email: string,
                                         emailVerified: bool, name: Option<string>)

  /** Configuration and hooks. A hook that answers `None` or `false` refuses. */
  datatype Env = Env(normalize: string -> string, trustedProviders: seq<string>, beforeUserCreate: User -> Option<User>,
                     afterUserCreate: User -> bool, beforeAccountLink: (User, OAuthIdentity) -> bool)

  datatype Tables = Tables(users: map<nat, User>, accounts: map<nat, Account>)

  datatype Event = UserCreated(userId: nat) | AccountLinked(userId: nat, accountId: nat)

  /** Both a matching proof on the provider's side and one on ours, or a provider trusted to stand for it. */
  predicate CanLinkImplicitly(providerId: string, providerEmailVerified: bool, localEmailVerified: bool,
                              trustedProviders: seq<string>) {
    providerEmailVerified && (providerId in trustedProviders || localEmailVerified)
  }

  // ---------------------------------------------------------------------------
  // Inserts under unique indexes
  // ---------------------------------------------------------------------------

  datatype DbError = UniqueViolation | ForeignKeyViolation | HookRefusal

  predicate EmailTaken(t: Tables, email: string) { exists u :: u in t.users && t.users[u].email == email }

  predicate Names(a: Account, issuer: string, accountId: string) { a.issuer == issuer && a.accountId == accountId }

  predicate IdentityTaken(t: Tables, issuer: string, accountId: string) {
    exists a :: a in t.accounts && Names(t.accounts[a], issuer, accountId)
  }

  function InsertUser(t: Tables, u: User): Result<Tables, DbError> {
    if u.id in t.users || EmailTaken(t, u.email) then Failure(UniqueViolation)
    else Success(t.(users := t.users[u.id := u]))
  }

  function InsertAccount(t: Tables, a: Account): Result<Tables, DbError> {
    if a.id in t.accounts || IdentityTaken(t, a.issuer, a.accountId) then Failure(UniqueViolation)
    else if a.userId !in t.users then Failure(ForeignKeyViolation)
    else Success(t.(accounts := t.accounts[a.id := a]))
  }

  function NewAccount(id: nat, identity: OAuthIdentity, tokens: Option<string>, userId: nat): Account {
    Account(id, identity.issuer, identity.accountId, identity.providerId, userId, tokens, None)
  }

  /** The user row a first sign-in writes, after the hook had its say and the address was normalized again. */
  function NewUser(env: Env, identity: OAuthIdentity, id: nat): Option<User> {
    var email := env.normalize(identity.email);
    var candidate :=
      User(id, if identity.name.Some? then identity.name.value else email, email, identity.emailVerified);
    match env.beforeUserCreate(candidate)
    case None => None
    case Some(row) => Some(row.(id := id, email := env.normalize(row.email)))
  }

  /** User and first account in one transaction: both or neither. */
  function CreateBoth(env: Env, t: Tables, identity: OAuthIdentity, tokens: Option<string>, uid: nat, aid: nat)
      : Result<Tables, DbError> {
    match NewUser(env, identity, uid)
    case None => Failure(HookRefusal)
    case Some(user) =>
      match InsertUser(t, user)
      case Failure(e) => Failure(e)
      case Success(withUser) =>
        if !env.afterUserCreate(user) then Failure(HookRefusal)
        else InsertAccount(withUser, NewAccount(aid, identity, tokens, uid))
  }

  // ---------------------------------------------------------------------------
  // One call as a fibre
  // ---------------------------------------------------------------------------

  datatype LinkResult =
    | Linked(user: User, account: Account, userCreated: bool, accountCreated: bool)
    | AccountAlreadyLinked
    | PolicyRefused
    | UserNotFound
    | NotFound
    | Failed(cause: DbError)

  datatype Pc =
    | Seeking
    | Known(account: Account)
    | Refreshing(account: Account, owner: User)
    | Unknown
    | Linking(user: User)
    | Creating
    | Done(result: LinkResult)

  /** `attempt` is 0 or, after the one retry, 1. */
  datatype Fibre = Fibre(identity: OAuthIdentity, tokens: Option<string>, attempt: nat, pc: Pc)

  ghost function FindAccount(t: Tables, issuer: string, accountId: string): (r: Option<Account>)
    ensures r.Some? ==> exists a :: a in t.accounts && t.accounts[a] == r.value && Names(r.value, issuer, accountId)
    ensures r.None? ==> !IdentityTaken(t, issuer, accountId)
  {
    if IdentityTaken(t, issuer, accountId) then
      var a :| a in t.accounts && Names(t.accounts[a], issuer, accountId);
      Some(t.accounts[a])
    else None
  }

  ghost function FindByEmail(t: Tables, email: string): (r: Option<User>)
    ensures r.Some? ==> exists u :: u in t.users && t.users[u] == r.value && r.value.email == email
    ensures r.None? ==> !EmailTaken(t, email)
  {
    if EmailTaken(t, email) then
      var u :| u in t.users && t.users[u].email == email;
      Some(t.users[u])
    else None
  }

  function Retried(fibre: Fibre, cause: DbError): Fibre {
    if cause.HookRefusal? then fibre.(pc := Done(PolicyRefused))
    else if cause.UniqueViolation? && fibre.attempt == 0 then fibre.(attempt := 1, pc := Seeking)
    else fibre.(pc := Done(Failed(cause)))
  }

  function RefreshedTables(t: Tables, a: Account, tokens: Option<string>): Tables {
    if tokens.Some? && a.id in t.accounts
    then t.(accounts := t.accounts[a.id := t.accounts[a.id].(tokens := tokens)]) else t
  }

  function RefreshedAccount(t: Tables, a: Account, tokens: Option<string>): Account {
    if tokens.Some? && a.id in t.accounts then t.accounts[a.id].(tokens := tokens) else a
  }

  /** What holding the reported address leads to. */
  function Gated(env: Env, identity: OAuthIdentity, user: User): Pc {
    if !CanLinkImplicitly(identity.providerId, identity.emailVerified, user.emailVerified, env.trustedProviders)
    then Done(AccountAlreadyLinked)
    else if !env.beforeAccountLink(user, identity) then Done(PolicyRefused)
    else Linking(user)
  }

  /** One statement or transaction of a call: the tables, the fibre, and what is published. */
  ghost function Advanced(env: Env, t: Tables, fibre: Fibre, uid: nat, aid: nat): (Tables, Fibre, seq<Event>) {
    var identity, tokens := fibre.identity, fibre.tokens;
    match fibre.pc
    case Seeking =>
      var found := FindAccount(t, identity.issuer, identity.accountId);
      (t, fibre.(pc := if found.Some? then Known(found.value) else Unknown), [])
    case Known(account) =>
      (t, fibre.(pc := if account.userId in t.users then Refreshing(account, t.users[account.userId])
                 else Done(UserNotFound)), [])
    case Refreshing(account, owner) =>
      (RefreshedTables(t, account, tokens),
       fibre.(pc := Done(Linked(owner, RefreshedAccount(t, account, tokens), false, false))), [])
    case Unknown =>
      var holder := FindByEmail(t, env.normalize(identity.email));
      (t, fibre.(pc := if holder.Some? then Gated(env, identity, holder.value) else Creating), [])
    case Linking(user) =>
      var account := NewAccount(aid, identity, tokens, user.id);
      (match InsertAccount(t, account)
       case Success(t2) => (t2, fibre.(pc := Done(Linked(user, account, false, true))), [AccountLinked(user.id, aid)])
       case Failure(e) => (t, Retried(fibre, e), []))
    case Creating =>
      (match CreateBoth(env, t, identity, tokens, uid, aid)
       case Success(t2) =>
         (t2, fibre.(pc := Done(Linked(NewUser(env, identity, uid).value, NewAccount(aid, identity, tokens, uid),
                                       true, true))),
          [UserCreated(uid), AccountLinked(uid, aid)])
       case Failure(e) => (t, Retried(fibre, e), []))
    case Done(_) => (t, fibre, [])
  }

  // ---------------------------------------------------------------------------
  // Any number of calls
  // ---------------------------------------------------------------------------

  datatype State = State(tables: Tables, fibres: map<nat, Fibre>, events: seq<Event>)

  datatype Step = Call(f: nat, identity: OAuthIdentity, tokens: Option<string>) | Advance(f: nat, uid: nat, aid: nat)

  predicate Enabled(s: State, step: Step) {
    match step
    case Call(f, _, _) => f !in s.fibres
    case Advance(f, uid, aid) => f in s.fibres && uid !in s.tables.users && aid !in s.tables.accounts
  }

  ghost function Apply(env: Env, s: State, step: Step): State {
    if !Enabled(s, step) then s
    else match step
      case Call(f, identity, tokens) => s.(fibres := s.fibres[f := Fibre(identity, tokens, 0, Seeking)])
      case Advance(f, uid, aid) =>
        var (t, fibre, published) := Advanced(env, s.tables, s.fibres[f], uid, aid);
        State(t, s.fibres[f := fibre], s.events + published)
  }

  ghost function Run(env: Env, s: State, steps: seq<Step>): State
    decreases |steps|
  {
    if steps == [] then s else Run(env, Apply(env, s, steps[0]), steps[1..])
  }

  function Initial(t: Tables): State { State(t, map[], []) }

  /** How many more steps a call can take. */
  function Fuel(fibre: Fibre): nat {
    match fibre.pc
    case Seeking => if fibre.attempt == 0 then 6 else 3
    case Known(_) => if fibre.attempt == 0 then 5 else 2
    case Unknown => if fibre.attempt == 0 then 5 else 2
    case Done(_) => 0
    case _ => if fibre.attempt == 0 then 4 else 1
  }

  ghost function OwnSteps(env: Env, s: State, steps: seq<Step>, f: nat): nat
    decreases |steps|
  {
    if steps == [] then 0
    else (if steps[0].Advance? && steps[0].f == f && Enabled(s, steps[0]) && !s.fibres[f].pc.Done? then 1 else 0)
         + OwnSteps(env, Apply(env, s, steps[0]), steps[1..], f)
  }

  /** Whatever the others do, a call is done after at most six statements of its own. */
  lemma {:induction false} CallsFinish(env: Env, s: State, steps: seq<Step>, f: nat)
    requires f in s.fibres
    ensures f in Run(env, s, steps).fibres
    ensures Fuel(Run(env, s, steps).fibres[f]) + OwnSteps(env, s, steps, f) <= Fuel(s.fibres[f])
    decreases |steps|
  {
    if steps != [] {
      var t := Apply(env, s, steps[0]);
      assert f in t.fibres && Fuel(t.fibres[f]) + OwnSteps(env, s, [steps[0]], f) <= Fuel(s.fibres[f]);
      hide Apply, Fuel;
      CallsFinish(env, t, steps[1..], f);
    }
  }

  // ---------------------------------------------------------------------------
  // One brand-new identity, many callbacks
  // ---------------------------------------------------------------------------

  predicate OnlyCalls(steps: seq<Step>, identity: OAuthIdentity) {
    forall i :: 0 <= i < |steps| && steps[i].Call? ==> steps[i].identity == identity
  }

  ghost predicate NeverRefuses(env: Env, identity: OAuthIdentity) {
    && (forall id :: NewUser(env, identity, id).Some? && env.afterUserCreate(NewUser(env, identity, id).value))
    && (forall u :: env.beforeAccountLink(u, identity))
  }

  /** Nobody holds the identity, the address it reports, or the address the hook would store instead. */
  ghost predicate BrandNew(env: Env, t: Tables, identity: OAuthIdentity) {
    && !IdentityTaken(t, identity.issuer, identity.accountId)
    && !EmailTaken(t, env.normalize(identity.email))
    && forall id :: NewUser(env, identity, id).Some? ==> !EmailTaken(t, NewUser(env, identity, id).value.email)
  }

  predicate Keyed(t: Tables) {
    && (forall u :: u in t.users ==> t.users[u].id == u)
    && (forall a :: a in t.accounts ==> t.accounts[a].id == a)
  }

  /** Before anybody commits: nothing written, and every fibre read nothing. */
  ghost predicate Unsettled(s: State, t: Tables, identity: OAuthIdentity) {
    && s.tables == t && s.events == []
    && forall f :: f in s.fibres ==> s.fibres[f].identity == identity && s.fibres[f].attempt == 0
                                     && (s.fibres[f].pc.Seeking? || s.fibres[f].pc.Unknown? || s.fibres[f].pc.Creating?)
  }

  /** Whether a callback that meets the new user only by address is let onto it. */
  predicate Welcome(env: Env, identity: OAuthIdentity, user: User) {
    || user.email != env.normalize(identity.email)
    || CanLinkImplicitly(identity.providerId, identity.emailVerified, user.emailVerified, env.trustedProviders)
  }

  predicate SameAccount(a: Account, b: Account) { a.(tokens := None) == b.(tokens := None) }

  predicate ResultGood(env: Env, identity: OAuthIdentity, user: User, account: Account, r: LinkResult) {
    || (r.Linked? && r.user == user && SameAccount(r.account, account))
    || (r.AccountAlreadyLinked? && !Welcome(env, identity, user))
  }

  predicate FibreSettled(env: Env, identity: OAuthIdentity, user: User, account: Account, fibre: Fibre) {
    && fibre.identity == identity && fibre.attempt <= 1
    && match fibre.pc
       case Seeking => true
       case Known(a) => SameAccount(a, account)
       case Refreshing(a, owner) => SameAccount(a, account) && owner == user
       case Unknown => fibre.attempt == 0
       case Linking(u) => fibre.attempt == 0 && u == user
       case Creating => fibre.attempt == 0
       case Done(r) => ResultGood(env, identity, user, account, r)
  }

  /** After the one commit: exactly one user and one account more, and every fibre on its way to them. */
  ghost predicate Settled(env: Env, s: State, t: Tables, identity: OAuthIdentity, user: User, account: Account) {
    && user.id !in t.users && NewUser(env, identity, user.id) == Some(user)
    && s.tables.users == t.users[user.id := user]
    && account.id !in t.accounts && SameAccount(account, NewAccount(account.id, identity, None, user.id))
    && account.id in s.tables.accounts && SameAccount(s.tables.accounts[account.id], account)
    && s.tables.accounts == t.accounts[account.id := s.tables.accounts[account.id]]
    && s.events == [UserCreated(user.id), AccountLinked(user.id, account.id)]
    && forall f :: f in s.fibres ==> FibreSettled(env, identity, user, account, s.fibres[f])
  }

  ghost predicate OneWinner(env: Env, s: State, t: Tables, identity: OAuthIdentity) {
    Unsettled(s, t, identity) || exists user, account :: Settled(env, s, t, identity, user, account)
  }

  lemma SettledStep(env: Env, s: State, t: Tables, identity: OAuthIdentity, user: User, account: Account, step: Step)
    requires NeverRefuses(env, identity) && BrandNew(env, t, identity) && Keyed(t)
    requires Settled(env, s, t, identity, user, account) && (step.Call? ==> step.identity == identity)
    ensures Settled(env, Apply(env, s, step), t, identity, user, account)
  {
    if step.Advance? && Enabled(s, step) {
      var fibre := s.fibres[step.f];
      assert FibreSettled(env, identity, user, account, fibre);
      assert IdentityTaken(s.tables, identity.issuer, identity.accountId) by {
        assert Names(s.tables.accounts[account.id], identity.issuer, identity.accountId);
      }
      OnlyTheWinner(env, s, t, identity, user, account);
      AttemptLoses(env, s.tables, identity, step.uid, step.aid);
    }
  }

  /** In a settled store the identity and the address lead only to the winner's rows. */
  lemma OnlyTheWinner(env: Env, s: State, t: Tables, identity: OAuthIdentity, user: User, account: Account)
    requires BrandNew(env, t, identity) && Settled(env, s, t, identity, user, account)
    ensures FindAccount(s.tables, identity.issuer, identity.accountId) == Some(s.tables.accounts[account.id])
    ensures var holder := FindByEmail(s.tables, env.normalize(identity.email));
            holder == if user.email == env.normalize(identity.email) then Some(user) else None
  {
    assert Names(s.tables.accounts[account.id], identity.issuer, identity.accountId);
    forall a | a in s.tables.accounts && Names(s.tables.accounts[a], identity.issuer, identity.accountId)
      ensures a == account.id {
      assert forall b :: b in t.accounts ==> !Names(t.accounts[b], identity.issuer, identity.accountId);
    }
    forall u | u in s.tables.users && s.tables.users[u].email == env.normalize(identity.email) ensures u == user.id {
      assert forall v :: v in t.users ==> t.users[v].email != env.normalize(identity.email);
    }
    assert s.tables.users[user.id] == user;
  }

  /** An identity that is taken lets no transaction in, and what was tried leaves no trace. */
  lemma AttemptLoses(env: Env, t: Tables, identity: OAuthIdentity, uid: nat, aid: nat)
    requires NeverRefuses(env, identity) && IdentityTaken(t, identity.issuer, identity.accountId)
    ensures forall tokens :: CreateBoth(env, t, identity, tokens, uid, aid) == Failure(UniqueViolation)
    ensures forall tokens, userId ::
              InsertAccount(t, NewAccount(aid, identity, tokens, userId)) == Failure(UniqueViolation)
  {
    var a :| a in t.accounts && Names(t.accounts[a], identity.issuer, identity.accountId);
    var user := NewUser(env, identity, uid).value;
    var inserted := InsertUser(t, user);
    if inserted.Success? {
      assert a in inserted.value.accounts;
      assert IdentityTaken(inserted.value, identity.issuer, identity.accountId);
    }
  }

  lemma UnsettledStep(env: Env, s: State, t: Tables, identity: OAuthIdentity, step: Step)
    requires NeverRefuses(env, identity) && BrandNew(env, t, identity) && Keyed(t)
    requires Unsettled(s, t, identity) && (step.Call? ==> step.identity == identity)
    ensures OneWinner(env, Apply(env, s, step), t, identity)
  {
    if step.Advance? && Enabled(s, step) && s.fibres[step.f].pc.Creating? {
      var end := Apply(env, s, step);
      var user := NewUser(env, identity, step.uid).value;
      var account := NewAccount(step.aid, identity, s.fibres[step.f].tokens, step.uid);
      assert InsertUser(t, user).Success?;
      assert !IdentityTaken(InsertUser(t, user).value, identity.issuer, identity.accountId);
      assert Settled(env, end, t, identity, user, account);
    } else {
      assert Unsettled(Apply(env, s, step), t, identity);
    }
  }

  lemma {:induction false} OneWinnerAlways(env: Env, s: State, t: Tables, identity: OAuthIdentity, steps: seq<Step>)
    requires NeverRefuses(env, identity) && BrandNew(env, t, identity) && Keyed(t)
    requires OneWinner(env, s, t, identity) && OnlyCalls(steps, identity)
    ensures OneWinner(env, Run(env, s, steps), t, identity)
    decreases |steps|
  {
    hide Apply, Settled, Unsettled;
    if steps != [] {
      if Unsettled(s, t, identity) {
        UnsettledStep(env, s, t, identity, steps[0]);
      } else {
        var user, account :| Settled(env, s, t, identity, user, account);
        SettledStep(env, s, t, identity, user, account, steps[0]);
      }
      assert OneWinner(env, Apply(env, s, steps[0]), t, identity);
      forall i | 0 <= i < |steps[1..]| && steps[1..][i].Call? ensures steps[1..][i].identity == identity {
        assert steps[1..][i] == steps[i + 1];
      }
      OneWinnerAlways(env, Apply(env, s, steps[0]), t, identity, steps[1..]);
    }
  }

  predicate Finished(s: State, f: nat) { f in s.fibres && s.fibres[f].pc.Done? }

  /**
    All callbacks for one brand-new identity: the first to finish has created
    exactly one user and one account, every other finishes on that user within its
    single retry, or is turned away because the address alone is no proof.
   */
  lemma OneUserOneAccount(env: Env, t: Tables, identity: OAuthIdentity, steps: seq<Step>, f: nat)
    requires NeverRefuses(env, identity) && BrandNew(env, t, identity) && Keyed(t) && OnlyCalls(steps, identity)
    requires Finished(Run(env, Initial(t), steps), f)
    ensures var s := Run(env, Initial(t), steps);
            exists user, account :: Settled(env, s, t, identity, user, account)
                                    && forall g :: Finished(s, g) ==>
                                        ResultGood(env, identity, user, account, s.fibres[g].pc.result)
  {
    assert Unsettled(Initial(t), t, identity);
    OneWinnerAlways(env, Initial(t), t, identity, steps);
    var s := Run(env, Initial(t), steps);
    assert !Unsettled(s, t, identity);
    var user, account :| Settled(env, s, t, identity, user, account);
    forall g | Finished(s, g) ensures ResultGood(env, identity, user, account, s.fibres[g].pc.result) {
      assert FibreSettled(env, identity, user, account, s.fibres[g]);
    }
  }

  ghost predicate EveryoneLands(env: Env, t: Tables, identity: OAuthIdentity) {
    forall steps, f, g :: OnlyCalls(steps, identity) ==> LandTogether(Run(env, Initial(t), steps), f, g)
  }

  predicate LandTogether(s: State, f: nat, g: nat) {
    Finished(s, f) && Finished(s, g) ==>
      s.fibres[f].pc.result.Linked? && s.fibres[g].pc.result.Linked?
        && s.fibres[f].pc.result.user == s.fibres[g].pc.result.user
  }

  /**
    In every interleaving every callback lands on the one user exactly when the user it
    would create welcomes a match by address; so a verified identity, left verified, always does.
   */
  lemma EveryoneLandsExactly(env: Env, t: Tables, identity: OAuthIdentity)
    requires NeverRefuses(env, identity) && BrandNew(env, t, identity) && Keyed(t)
    ensures EveryoneLands(env, t, identity) <==>
            forall id :: id !in t.users ==> Welcome(env, identity, NewUser(env, identity, id).value)
    ensures identity.emailVerified
            && (forall id :: id !in t.users ==> NewUser(env, identity, id).value.emailVerified) ==>
            EveryoneLands(env, t, identity)
  {
    if forall id :: id !in t.users ==> Welcome(env, identity, NewUser(env, identity, id).value) {
      forall steps, f, g | OnlyCalls(steps, identity) ensures LandTogether(Run(env, Initial(t), steps), f, g) {
        var s := Run(env, Initial(t), steps);
        if Finished(s, f) && Finished(s, g) {
          OneUserOneAccount(env, t, identity, steps, f);
          var user, account :| Settled(env, s, t, identity, user, account)
                               && forall k :: Finished(s, k) ==>
                                   ResultGood(env, identity, user, account, s.fibres[k].pc.result);
          assert Welcome(env, identity, NewUser(env, identity, user.id).value);
        }
      }
    } else {
      var id :| id !in t.users && !Welcome(env, identity, NewUser(env, identity, id).value);
      TurnedAway(env, t, identity, id, FreshAccountId(t));
    }
  }

  ghost function FreshAccountId(t: Tables): (id: nat)
    ensures id !in t.accounts
  {
    FreshFor(t.accounts.Keys);
    var id: nat :| id !in t.accounts.Keys;
    id
  }

  lemma FreshFor(used: set<nat>)
    ensures exists id: nat :: id !in used
  {
    var bound := Above(used);
    assert bound !in used;
  }

  lemma Above(used: set<nat>) returns (bound: nat)
    ensures forall id :: id in used ==> id < bound
  {
    if x: nat :| x in used {
      var rest := Above(used - {x});
      bound := rest + x + 1;
      assert forall id :: id in used ==> id == x || id in used - {x};
    } else {
      assert used == {};
      bound := 0;
    }
  }

  /**
    The refusal does happen: a callback that looked for the identity before the commit and for
    the address after it.
   */
  lemma TurnedAway(env: Env, t: Tables, identity: OAuthIdentity, uid: nat, aid: nat)
    requires NeverRefuses(env, identity) && BrandNew(env, t, identity) && Keyed(t) && uid !in t.users
             && aid !in t.accounts
    requires !Welcome(env, identity, NewUser(env, identity, uid).value)
    ensures exists steps, f :: OnlyCalls(steps, identity) && !LandTogether(Run(env, Initial(t), steps), f, f)
  {
    var steps := BothFoundNothing(env, t, identity, uid, aid);
    var s := Run(env, Initial(t), steps);
    var user, account := NewUser(env, identity, uid).value, NewAccount(aid, identity, None, uid);
    var after := Apply(env, s, Advance(1, uid, aid));
    assert Settled(env, after, t, identity, user, account) by {
      assert InsertUser(t, user).Success?;
      assert !IdentityTaken(InsertUser(t, user).value, identity.issuer, identity.accountId);
    }
    OnlyTheWinner(env, after, t, identity, user, account);
    FreshFor(after.tables.users.Keys);
    FreshFor(after.tables.accounts.Keys);
    var uid2: nat :| uid2 !in after.tables.users.Keys;
    var aid2: nat :| aid2 !in after.tables.accounts.Keys;
    assert Apply(env, after, Advance(0, uid2, aid2)).fibres[0].pc == Done(AccountAlreadyLinked);
    hide Apply, Settled;
    RunSnoc(env, Initial(t), steps, Advance(1, uid, aid));
    RunSnoc(env, Initial(t), steps + [Advance(1, uid, aid)], Advance(0, uid2, aid2));
    var all := steps + [Advance(1, uid, aid)] + [Advance(0, uid2, aid2)];
    assert OnlyCalls(all, identity) && !LandTogether(Run(env, Initial(t), all), 0, 0);
  }

  /** Two callbacks: one has looked for the identity, the other for the address as well, and neither found anything. */
  lemma BothFoundNothing(env: Env, t: Tables, identity: OAuthIdentity, uid: nat, aid: nat) returns (steps: seq<Step>)
    requires BrandNew(env, t, identity) && uid !in t.users && aid !in t.accounts
    ensures OnlyCalls(steps, identity)
    ensures Run(env, Initial(t), steps)
         == State(t, map[0 := Fibre(identity, None, 0, Unknown), 1 := Fibre(identity, None, 0, Creating)], [])
  {
    var list := [Call(0, identity, None), Call(1, identity, None), Advance(0, uid, aid), Advance(1, uid, aid),
                 Advance(1, uid, aid)];
    var s1 := Apply(env, Initial(t), list[0]);
    var s2 := Apply(env, s1, list[1]);
    var s3 := Apply(env, s2, list[2]);
    var s4 := Apply(env, s3, list[3]);
    var s5 := Apply(env, s4, list[4]);
    var seeking, unknown := Fibre(identity, None, 0, Seeking), Fibre(identity, None, 0, Unknown);
    assert s2.fibres == map[0 := seeking, 1 := seeking];
    assert s4.fibres == map[0 := unknown, 1 := unknown];
    assert s5 == State(t, map[0 := unknown, 1 := Fibre(identity, None, 0, Creating)], []);
    steps := list;
    RunsThrough(env, steps, [Initial(t), s1, s2, s3, s4, s5]);
  }

  lemma {:induction false} RunsThrough(env: Env, steps: seq<Step>, states: seq<State>)
    requires |states| == |steps| + 1
    requires forall i :: 0 <= i < |steps| ==> states[i + 1] == Apply(env, states[i], steps[i])
    ensures Run(env, states[0], steps) == states[|steps|]
    decreases |steps|
  {
    hide Apply;
    if steps != [] {
      RunsThrough(env, steps[1..], states[1..]);
    }
  }

  lemma RunSnoc(env: Env, s: State, steps: seq<Step>, step: Step)
    ensures Run(env, s, steps + [step]) == Apply(env, Run(env, s, steps), step)
  {
    hide Apply;
    RunSplit(env, s, steps, [step]);
    assert [step][1..] == [];
  }

  lemma {:induction false} RunSplit(env: Env, s: State, a: seq<Step>, b: seq<Step>)
    ensures Run(env, s, a + b) == Run(env, Run(env, s, a), b)
    decreases |a|
  {
    hide Apply;
    if a == [] {
      assert a + b == b;
    } else {
      assert (a + b)[1..] == a[1..] + b;
      RunSplit(env, Apply(env, s, a[0]), a[1..], b);
    }
  }

  // ---------------------------------------------------------------------------
  // Single statements
  // ---------------------------------------------------------------------------

  lemma Moves(env: Env, s: State, step: Step)
    requires step.Advance? && Enabled(s, step)
    ensures var (t, fibre, published) := Advanced(env, s.tables, s.fibres[step.f], step.uid, step.aid);
            Apply(env, s, step) == State(t, s.fibres[step.f := fibre], s.events + published)
  {
    hide Advanced;
  }

  lemma Starts(env: Env, s: State, step: Step)
    requires step.Call? && Enabled(s, step)
    ensures Apply(env, s, step) == s.(fibres := s.fibres[step.f := Fibre(step.identity, step.tokens, 0, Seeking)])
  {
  }

  lemma SeekMiss(env: Env, t: Tables, fibre: Fibre, uid: nat, aid: nat)
    requires fibre.pc.Seeking? && !IdentityTaken(t, fibre.identity.issuer, fibre.identity.accountId)
    ensures Advanced(env, t, fibre, uid, aid) == (t, fibre.(pc := Unknown), [])
  {
  }

  lemma AddressMiss(env: Env, t: Tables, fibre: Fibre, uid: nat, aid: nat)
    requires fibre.pc.Unknown? && !EmailTaken(t, env.normalize(fibre.identity.email))
    ensures Advanced(env, t, fibre, uid, aid) == (t, fibre.(pc := Creating), [])
  {
  }

  lemma AddressHit(env: Env, t: Tables, fibre: Fibre, uid: nat, aid: nat, user: User)
    requires fibre.pc.Unknown? && user.id in t.users && t.users[user.id] == user
             && user.email == env.normalize(fibre.identity.email)
    requires forall u :: u in t.users && t.users[u].email == user.email ==> u == user.id
    ensures Advanced(env, t, fibre, uid, aid) == (t, fibre.(pc := Gated(env, fibre.identity, user)), [])
  {
    assert EmailTaken(t, user.email);
  }

  lemma LinkInserts(env: Env, t: Tables, fibre: Fibre, uid: nat, aid: nat)
    requires fibre.pc.Linking? && fibre.pc.user.id in t.users && aid !in t.accounts
    ensures var identity, account := fibre.identity, NewAccount(aid, fibre.identity, fibre.tokens, fibre.pc.user.id);
            if IdentityTaken(t, identity.issuer, identity.accountId)
            then Advanced(env, t, fibre, uid, aid) == (t, Retried(fibre, UniqueViolation), [])
            else && Advanced(env, t, fibre, uid, aid).0 == t.(accounts := t.accounts[aid := account])
                 && Advanced(env, t, fibre, uid, aid).1
                   == fibre.(pc := Done(Linked(fibre.pc.user, account, false, true)))
  {
  }

  lemma CreateTries(env: Env, t: Tables, fibre: Fibre, uid: nat, aid: nat)
    requires fibre.pc.Creating? && NeverRefuses(env, fibre.identity) && uid !in t.users && aid !in t.accounts
    requires !IdentityTaken(t, fibre.identity.issuer, fibre.identity.accountId)
    ensures var identity, user := fibre.identity, NewUser(env, fibre.identity, uid).value;
            var moved, account := Advanced(env, t, fibre, uid, aid), NewAccount(aid, identity, fibre.tokens, uid);
            if EmailTaken(t, user.email) then moved == (t, Retried(fibre, UniqueViolation), [])
            else moved.0 == Tables(t.users[uid := user], t.accounts[aid := account])
  {
    var user := NewUser(env, fibre.identity, uid).value;
    if !EmailTaken(t, user.email) {
      assert !IdentityTaken(InsertUser(t, user).value, fibre.identity.issuer, fibre.identity.accountId);
    }
  }

  // ---------------------------------------------------------------------------
  // Every run
  // ---------------------------------------------------------------------------

  /** The primary keys and the unique indexes. */
  ghost predicate Indexed(t: Tables) {
    && Keyed(t)
    && (forall u, v :: u in t.users && v in t.users && t.users[u].email == t.users[v].email ==> u == v)
    && (forall a, b :: a in t.accounts && b in t.accounts && OneName(t.accounts[a], t.accounts[b]) ==> a == b)
  }

  predicate OneName(a: Account, b: Account) { Names(a, b.issuer, b.accountId) }

  /** The indexes and the foreign key. */
  ghost predicate Consistent(t: Tables) {
    Indexed(t) && forall a :: a in t.accounts ==> t.accounts[a].userId in t.users
  }

  predicate Grows(t: Tables, u: Tables) {
    && (forall i :: i in t.users ==> i in u.users && u.users[i] == t.users[i])
    && (forall a :: a in t.accounts ==> a in u.accounts && SameAccount(u.accounts[a], t.accounts[a]))
  }

  lemma InsertUserConsistent(t: Tables, u: User)
    requires Consistent(t) && InsertUser(t, u).Success?
    ensures Consistent(InsertUser(t, u).value) && Grows(t, InsertUser(t, u).value)
  {
  }

  lemma InsertAccountConsistent(t: Tables, a: Account)
    requires Consistent(t) && InsertAccount(t, a).Success?
    ensures Consistent(InsertAccount(t, a).value) && Grows(t, InsertAccount(t, a).value)
  {
  }

  lemma CreateConsistent(env: Env, t: Tables, identity: OAuthIdentity, tokens: Option<string>, uid: nat, aid: nat)
    requires Consistent(t) && CreateBoth(env, t, identity, tokens, uid, aid).Success?
    ensures Consistent(CreateBoth(env, t, identity, tokens, uid, aid).value)
            && Grows(t, CreateBoth(env, t, identity, tokens, uid, aid).value)
  {
    hide Consistent;
    var user, account := NewUser(env, identity, uid).value, NewAccount(aid, identity, tokens, uid);
    InsertUserConsistent(t, user);
    InsertAccountConsistent(InsertUser(t, user).value, account);
  }

  lemma RefreshConsistent(t: Tables, a: Account, tokens: Option<string>)
    requires Consistent(t)
    ensures Consistent(RefreshedTables(t, a, tokens)) && Grows(t, RefreshedTables(t, a, tokens)) && Grows(t, t)
  {
  }

  lemma AdvanceConsistent(env: Env, t: Tables, fibre: Fibre, uid: nat, aid: nat)
    requires Consistent(t)
    ensures var end := Advanced(env, t, fibre, uid, aid).0; Consistent(end) && Grows(t, end)
  {
    hide Consistent, Grows, CreateBoth, InsertAccount, RefreshedTables, FindAccount, FindByEmail;
    var identity, tokens := fibre.identity, fibre.tokens;
    RefreshConsistent(t, NewAccount(aid, identity, tokens, uid), None);
    match fibre.pc {
      case Creating =>
        if CreateBoth(env, t, identity, tokens, uid, aid).Success? {
          CreateConsistent(env, t, identity, tokens, uid, aid);
        }
      case Linking(user) =>
        if InsertAccount(t, NewAccount(aid, identity, tokens, user.id)).Success? {
          InsertAccountConsistent(t, NewAccount(aid, identity, tokens, user.id));
        }
      case Refreshing(account, _) => RefreshConsistent(t, account, tokens);
      case _ =>
    }
  }

  /**
    However calls interleave the tables stay consistent, and an identity once linked leads to
    the same user for ever.
   */
  lemma {:induction false} IdentityNeverMoves(env: Env, s: State, steps: seq<Step>)
    requires Consistent(s.tables)
    ensures Consistent(Run(env, s, steps).tables) && Grows(s.tables, Run(env, s, steps).tables)
    decreases |steps|
  {
    hide Consistent;
    if steps != [] {
      if steps[0].Advance? && Enabled(s, steps[0]) {
        AdvanceConsistent(env, s.tables, s.fibres[steps[0].f], steps[0].uid, steps[0].aid);
      }
      assert Consistent(Apply(env, s, steps[0]).tables) && Grows(s.tables, Apply(env, s, steps[0]).tables);
      hide Apply;
      IdentityNeverMoves(env, Apply(env, s, steps[0]), steps[1..]);
    }
  }

  // ---------------------------------------------------------------------------
  // What it takes to attach an account
  // ---------------------------------------------------------------------------

  /**
    A fibre about to link holds the row of a user who is still there, met by address, proved on
    both sides or trusted.
   */
  ghost predicate LinkProved(env: Env, t: Tables, fibre: Fibre) {
    fibre.pc.Linking? ==>
      var i, user := fibre.identity, fibre.pc.user;
      && user.id in t.users && t.users[user.id] == user && user.email == env.normalize(i.email)
      && i.emailVerified && (i.providerId in env.trustedProviders || user.emailVerified)
      && env.beforeAccountLink(user, i)
  }

  ghost predicate LinksProved(env: Env, s: State) {
    Keyed(s.tables) && forall f :: f in s.fibres ==> LinkProved(env, s.tables, s.fibres[f])
  }

  lemma LinkStaysProved(env: Env, t: Tables, t2: Tables, fibre: Fibre)
    requires LinkProved(env, t, fibre) && forall u :: u in t.users ==> u in t2.users && t2.users[u] == t.users[u]
    ensures LinkProved(env, t2, fibre)
  {
  }

  lemma AdvanceProves(env: Env, t: Tables, fibre: Fibre, uid: nat, aid: nat)
    requires Keyed(t) && uid !in t.users
    ensures var (t2, next, _) := Advanced(env, t, fibre, uid, aid);
            && LinkProved(env, t2, next) && Keyed(t2)
            && forall u :: u in t.users ==> u in t2.users && t2.users[u] == t.users[u]
  {
    Adds(env, t, fibre, uid, aid);
  }

  lemma LinksStep(env: Env, s: State, step: Step)
    requires LinksProved(env, s)
    ensures LinksProved(env, Apply(env, s, step))
  {
    if step.Advance? && Enabled(s, step) {
      Moves(env, s, step);
      AdvanceProves(env, s.tables, s.fibres[step.f], step.uid, step.aid);
      hide Apply, Advanced;
      var t2 := Advanced(env, s.tables, s.fibres[step.f], step.uid, step.aid).0;
      forall g | g in s.fibres ensures LinkProved(env, t2, s.fibres[g]) {
        LinkStaysProved(env, s.tables, t2, s.fibres[g]);
      }
    }
  }

  lemma {:induction false} LinksAlong(env: Env, s: State, steps: seq<Step>)
    requires LinksProved(env, s)
    ensures LinksProved(env, Run(env, s, steps))
    decreases |steps|
  {
    hide Apply, LinksProved;
    if steps != [] {
      LinksStep(env, s, steps[0]);
      LinksAlong(env, Apply(env, s, steps[0]), steps[1..]);
    }
  }

  /**
    Over every run a step adds an account only for an identity nobody holds. To a user
    who was there it is added only where the provider verified the address they share,
    the provider is trusted or the user had verified it too, and the hook allowed it;
    otherwise the user is the one that step created. What is added is published.
   */
  lemma AttachedOnProof(env: Env, t: Tables, steps: seq<Step>, step: Step, a: nat)
    requires Keyed(t)
    requires var s := Run(env, Initial(t), steps); a in Apply(env, s, step).tables.accounts && a !in s.tables.accounts
    ensures var s := Run(env, Initial(t), steps);
            var after := Apply(env, s, step);
            var account := after.tables.accounts[a];
            && step.Advance? && a == step.aid && step.f in s.fibres
            && var i := s.fibres[step.f].identity;
            && account == Account(a, i.issuer, i.accountId, i.providerId, account.userId, s.fibres[step.f].tokens, None)
            && (forall b :: b in s.tables.accounts ==>
                  !(s.tables.accounts[b].issuer == i.issuer && s.tables.accounts[b].accountId == i.accountId))
            && (if account.userId in s.tables.users then
                  var user := s.tables.users[account.userId];
                  && i.emailVerified && (i.providerId in env.trustedProviders || user.emailVerified)
                  && user.email == env.normalize(i.email) && env.beforeAccountLink(user, i)
                  && after.tables.users == s.tables.users
                  && after.events == s.events + [AccountLinked(account.userId, a)]
                else
                  && account.userId == step.uid && after.tables.users.Keys == s.tables.users.Keys + {step.uid}
                  && after.events == s.events + [UserCreated(step.uid), AccountLinked(step.uid, a)])
  {
    LinksAlong(env, Initial(t), steps);
    var s := Run(env, Initial(t), steps);
    hide Run;
    Moves(env, s, step);
    assert LinkProved(env, s.tables, s.fibres[step.f]);
    AddedIs(env, s.tables, s.fibres[step.f], step.uid, step.aid, a);
  }

  lemma AddedIs(env: Env, t: Tables, fibre: Fibre, uid: nat, aid: nat, a: nat)
    requires a !in t.accounts && a in Advanced(env, t, fibre, uid, aid).0.accounts
    ensures fibre.pc.Linking? || fibre.pc.Creating?
    ensures var (t2, _, published) := Advanced(env, t, fibre, uid, aid);
            var userId := if fibre.pc.Linking? then fibre.pc.user.id else uid;
            && a == aid && t2.accounts[a] == NewAccount(aid, fibre.identity, fibre.tokens, userId)
            && !IdentityTaken(t, fibre.identity.issuer, fibre.identity.accountId)
            && (fibre.pc.Linking? ==> t2.users == t.users && published == [AccountLinked(userId, aid)])
            && (fibre.pc.Creating? ==> uid !in t.users && t2.users.Keys == t.users.Keys + {uid}
                                       && published == [UserCreated(uid), AccountLinked(uid, aid)])
  {
    if fibre.pc.Creating? {
      var with := InsertUser(t, NewUser(env, fibre.identity, uid).value).value;
      assert forall b :: b in t.accounts ==> b in with.accounts && with.accounts[b] == t.accounts[b];
    }
  }

  // ---------------------------------------------------------------------------
  // Several identities at once
  // ---------------------------------------------------------------------------

  predicate SameName(i: OAuthIdentity, j: OAuthIdentity) { i.issuer == j.issuer && i.accountId == j.accountId }

  /** An address the hook may store for an identity, whatever the provider reported. */
  ghost predicate Stores(env: Env, i: OAuthIdentity, email: string) {
    exists id :: NewUser(env, i, id).Some? && NewUser(env, i, id).value.email == email
  }

  /** No address is stored for two names. */
  ghost predicate AddressesApart(env: Env, all: set<OAuthIdentity>) {
    forall i, j, email :: i in all && j in all && Stores(env, i, email) && Stores(env, j, email) ==> SameName(i, j)
  }

  predicate Taken(t: Tables, i: OAuthIdentity) { IdentityTaken(t, i.issuer, i.accountId) }

  /** An address of an identity is taken only once the identity is. */
  ghost predicate AddressFollows(env: Env, all: set<OAuthIdentity>, t: Tables) {
    forall i, email :: i in all && Stores(env, i, email) && EmailTaken(t, email) ==> Taken(t, i)
  }

  /** A second attempt is only made once the identity is taken, and so ends by signing in. */
  predicate SecondFinds(t: Tables, fibre: Fibre) {
    && fibre.attempt <= 1
    && (fibre.attempt == 1 ==>
        Taken(t, fibre.identity) && !fibre.pc.Unknown? && !fibre.pc.Linking? && !fibre.pc.Creating?)
    && fibre.pc != Done(Failed(UniqueViolation))
  }

  ghost predicate FollowsInv(env: Env, all: set<OAuthIdentity>, s: State) {
    && AddressFollows(env, all, s.tables)
    && forall f :: f in s.fibres ==> s.fibres[f].identity in all && SecondFinds(s.tables, s.fibres[f])
  }

  lemma TakenForGood(t: Tables, u: Tables, i: OAuthIdentity)
    requires Taken(t, i)
    requires forall a :: a in t.accounts ==> a in u.accounts && SameAccount(u.accounts[a], t.accounts[a])
    ensures Taken(u, i)
  {
    var a :| a in t.accounts && Names(t.accounts[a], i.issuer, i.accountId);
    assert Names(u.accounts[a], i.issuer, i.accountId);
  }

  /** What a step adds: accounts, and at most one user, together with an account of its fibre's identity. */
  lemma Adds(env: Env, t: Tables, fibre: Fibre, uid: nat, aid: nat)
    requires Keyed(t)
    ensures var end := Advanced(env, t, fibre, uid, aid).0;
            && Keyed(end)
            && (forall a :: a in t.accounts ==> a in end.accounts && SameAccount(end.accounts[a], t.accounts[a]))
            && (end.users == t.users
                || (NewUser(env, fibre.identity, uid).Some?
                    && end.users == t.users[uid := NewUser(env, fibre.identity, uid).value]
                    && Taken(end, fibre.identity)))
  {
    var identity, tokens := fibre.identity, fibre.tokens;
    if fibre.pc.Creating? && CreateBoth(env, t, identity, tokens, uid, aid).Success? {
      var end := CreateBoth(env, t, identity, tokens, uid, aid).value;
      assert Names(end.accounts[aid], identity.issuer, identity.accountId);
    }
  }

  /** The address or the identity was taken, and the address only with the identity. */
  lemma ViolationMeansTaken(env: Env, all: set<OAuthIdentity>, t: Tables, fibre: Fibre, uid: nat, aid: nat)
    requires AddressFollows(env, all, t) && fibre.identity in all && uid !in t.users && aid !in t.accounts
    requires CreateBoth(env, t, fibre.identity, fibre.tokens, uid, aid) == Failure(UniqueViolation)
    ensures Taken(t, fibre.identity)
  {
    var i := fibre.identity;
    var user := NewUser(env, i, uid).value;
    if EmailTaken(t, user.email) {
      assert Stores(env, i, user.email);
    } else {
      var with := InsertUser(t, user).value;
      assert with.accounts == t.accounts;
      assert IdentityTaken(with, i.issuer, i.accountId);
    }
  }

  lemma SecondFindsStep(env: Env, all: set<OAuthIdentity>, t: Tables, fibre: Fibre, uid: nat, aid: nat)
    requires AddressFollows(env, all, t) && fibre.identity in all && uid !in t.users && aid !in t.accounts
    requires Keyed(t) && SecondFinds(t, fibre)
    ensures var (t2, next, _) := Advanced(env, t, fibre, uid, aid);
            next.identity == fibre.identity && SecondFinds(t2, next)
  {
    hide AddressFollows, CreateBoth, IdentityTaken;
    var i := fibre.identity;
    if fibre.pc.Creating? && CreateBoth(env, t, i, fibre.tokens, uid, aid) == Failure(UniqueViolation) {
      ViolationMeansTaken(env, all, t, fibre, uid, aid);
    }
    if fibre.attempt == 1 {
      Adds(env, t, fibre, uid, aid);
      TakenForGood(t, Advanced(env, t, fibre, uid, aid).0, i);
    }
  }

  lemma FollowsStep(env: Env, all: set<OAuthIdentity>, s: State, step: Step)
    requires AddressesApart(env, all) && FollowsInv(env, all, s) && Keyed(s.tables)
             && (step.Call? ==> step.identity in all)
    ensures FollowsInv(env, all, Apply(env, s, step)) && Keyed(Apply(env, s, step).tables)
  {
    if step.Advance? && Enabled(s, step) {
      var fibre := s.fibres[step.f];
      Moves(env, s, step);
      Adds(env, s.tables, fibre, step.uid, step.aid);
      SecondFindsStep(env, all, s.tables, fibre, step.uid, step.aid);
      hide Apply, Advanced;
      var t2 := Advanced(env, s.tables, fibre, step.uid, step.aid).0;
      StillFollows(env, all, s.tables, t2, fibre.identity, step.uid);
      forall g | g in s.fibres && g != step.f ensures SecondFinds(t2, s.fibres[g]) {
        assert SecondFinds(s.tables, s.fibres[g]);
        if s.fibres[g].attempt == 1 {
          TakenForGood(s.tables, t2, s.fibres[g].identity);
        }
      }
    }
  }

  lemma StillFollows(env: Env, all: set<OAuthIdentity>, t: Tables, t2: Tables, i: OAuthIdentity, uid: nat)
    requires AddressesApart(env, all) && AddressFollows(env, all, t) && i in all
    requires forall a :: a in t.accounts ==> a in t2.accounts && SameAccount(t2.accounts[a], t.accounts[a])
    requires t2.users == t.users
             || (NewUser(env, i, uid).Some? && t2.users == t.users[uid := NewUser(env, i, uid).value] && Taken(t2, i))
    ensures AddressFollows(env, all, t2)
  {
    forall j, email | j in all && Stores(env, j, email) && EmailTaken(t2, email) ensures Taken(t2, j) {
      if EmailTaken(t, email) {
        TakenForGood(t, t2, j);
      } else {
        var u :| u in t2.users && t2.users[u].email == email;
        assert u == uid && Stores(env, i, email);
      }
    }
  }

  lemma {:induction false} FollowsRun(env: Env, all: set<OAuthIdentity>, s: State, steps: seq<Step>)
    requires AddressesApart(env, all) && FollowsInv(env, all, s) && Keyed(s.tables) && CallsFrom(steps, all)
    ensures FollowsInv(env, all, Run(env, s, steps))
    decreases |steps|
  {
    hide Apply, FollowsInv, AddressesApart;
    if steps != [] {
      FollowsStep(env, all, s, steps[0]);
      FollowsRun(env, all, Apply(env, s, steps[0]), steps[1..]);
    }
  }

  /**
    Under any hooks, for any identities whose stored addresses are their own, and are
    free while the identity is new: no callback exhausts its single retry.
   */
  lemma NobodyRunsOut(env: Env, t: Tables, all: set<OAuthIdentity>, steps: seq<Step>, f: nat)
    requires AddressesApart(env, all) && AddressFollows(env, all, t) && Keyed(t) && CallsFrom(steps, all)
    ensures !RanOut(Run(env, Initial(t), steps), f)
  {
    FollowsRun(env, all, Initial(t), steps);
    assert f in Run(env, Initial(t), steps).fibres ==>
             SecondFinds(Run(env, Initial(t), steps).tables, Run(env, Initial(t), steps).fibres[f]);
  }

  /** The hook leaves the address and its verification as the provider reported them. */
  ghost predicate Plain(env: Env, i: OAuthIdentity) {
    forall id :: NewUser(env, i, id).Some? && NewUser(env, i, id).value.email == env.normalize(i.email)
                 && NewUser(env, i, id).value.emailVerified == i.emailVerified
  }

  predicate Apart(env: Env, i: OAuthIdentity, j: OAuthIdentity) {
    env.normalize(i.email) != env.normalize(j.email) && !(i.issuer == j.issuer && i.accountId == j.accountId)
  }

  /** Identities no two of which share a name or an address, under hooks that never refuse. */
  ghost predicate Family(env: Env, all: set<OAuthIdentity>) {
    && (forall i :: i in all ==> NeverRefuses(env, i) && Plain(env, i))
    && (forall i, j :: i in all && j in all && i != j ==> Apart(env, i, j))
  }

  predicate Absent(env: Env, t: Tables, i: OAuthIdentity) {
    !IdentityTaken(t, i.issuer, i.accountId) && !EmailTaken(t, env.normalize(i.email))
  }

  /** The user and the account an identity came to. */
  predicate Home(env: Env, t: Tables, i: OAuthIdentity, home: (nat, nat)) {
    && home.0 in t.users && NewUser(env, i, home.0) == Some(t.users[home.0])
    && home.1 in t.accounts && SameAccount(t.accounts[home.1], NewAccount(home.1, i, None, home.0))
  }

  predicate FibreAt(env: Env, t: Tables, fibre: Fibre, home: Option<(nat, nat)>) {
    match home
    case None => fibre.attempt == 0 && (fibre.pc.Seeking? || fibre.pc.Unknown? || fibre.pc.Creating?)
    case Some((u, a)) =>
      u in t.users && a in t.accounts && FibreSettled(env, fibre.identity, t.users[u], t.accounts[a], fibre)
  }

  function HomeOf(homes: map<OAuthIdentity, (nat, nat)>, i: OAuthIdentity): Option<(nat, nat)> {
    if i in homes then Some(homes[i]) else None
  }

  predicate Placed(env: Env, t: Tables, i: OAuthIdentity, home: Option<(nat, nat)>) {
    if home.Some? then Home(env, t, i, home.value) else Absent(env, t, i)
  }

  ghost predicate FamilyInv(env: Env, all: set<OAuthIdentity>, s: State, homes: map<OAuthIdentity, (nat, nat)>) {
    && Consistent(s.tables)
    && (forall i :: i in all ==> Placed(env, s.tables, i, HomeOf(homes, i)))
    && (forall f :: f in s.fibres ==> s.fibres[f].identity in all
                                      && FibreAt(env, s.tables, s.fibres[f], HomeOf(homes, s.fibres[f].identity)))
  }

  lemma HomeFinds(env: Env, t: Tables, i: OAuthIdentity, home: (nat, nat))
    requires Consistent(t) && Plain(env, i) && Home(env, t, i, home)
    ensures FindAccount(t, i.issuer, i.accountId) == Some(t.accounts[home.1])
    ensures FindByEmail(t, env.normalize(i.email)) == Some(t.users[home.0])
    ensures IdentityTaken(t, i.issuer, i.accountId)
  {
    assert Names(t.accounts[home.1], i.issuer, i.accountId);
    assert t.users[home.0].email == env.normalize(i.email) && EmailTaken(t, env.normalize(i.email));
  }

  /** A fibre whose identity has its home: it moves towards it, and the tables change by tokens at most. */
  lemma StepAtHome(env: Env, t: Tables, fibre: Fibre, uid: nat, aid: nat, home: (nat, nat))
    requires Consistent(t) && Plain(env, fibre.identity) && NeverRefuses(env, fibre.identity)
    requires Home(env, t, fibre.identity, home) && FibreAt(env, t, fibre, Some(home))
    ensures var (t2, next, _) := Advanced(env, t, fibre, uid, aid);
            && t2.users == t.users && (t2 == t || t2.accounts == t.accounts[home.1 := t2.accounts[home.1]])
            && Home(env, t2, fibre.identity, home) && next.identity == fibre.identity
            && FibreAt(env, t2, next, Some(home))
  {
    hide Consistent, CreateBoth, InsertAccount, FindAccount, FindByEmail;
    HomeFinds(env, t, fibre.identity, home);
    AttemptLoses(env, t, fibre.identity, uid, aid);
  }

  lemma StepFromNothing(env: Env, t: Tables, fibre: Fibre, uid: nat, aid: nat)
    requires Plain(env, fibre.identity) && NeverRefuses(env, fibre.identity) && Absent(env, t, fibre.identity)
    requires FibreAt(env, t, fibre, None) && uid !in t.users && aid !in t.accounts
    ensures var (t2, next, _) := Advanced(env, t, fibre, uid, aid);
            && next.identity == fibre.identity
            && if fibre.pc.Creating? then
                 && t2 == Tables(t.users[uid := NewUser(env, fibre.identity, uid).value],
                                 t.accounts[aid := NewAccount(aid, fibre.identity, fibre.tokens, uid)])
                 && Home(env, t2, fibre.identity, (uid, aid)) && FibreAt(env, t2, next, Some((uid, aid)))
               else t2 == t && FibreAt(env, t2, next, None)
  {
    if fibre.pc.Creating? {
      CreateTries(env, t, fibre, uid, aid);
      var user := NewUser(env, fibre.identity, uid).value;
      assert !IdentityTaken(InsertUser(t, user).value, fibre.identity.issuer, fibre.identity.accountId);
    }
  }

  /** What is placed for one identity stays placed when another, apart from it, creates its rows. */
  lemma OthersStayPlaced(env: Env, t: Tables, user: User, account: Account, i: OAuthIdentity, home: Option<(nat, nat)>)
    requires Placed(env, t, i, home) && user.id !in t.users && account.id !in t.accounts
    requires user.email != env.normalize(i.email) && !Names(account, i.issuer, i.accountId)
    ensures Placed(env, Tables(t.users[user.id := user], t.accounts[account.id := account]), i, home)
  {
  }

  lemma FamilyStep(env: Env, all: set<OAuthIdentity>, s: State, homes: map<OAuthIdentity, (nat, nat)>, step: Step)
    returns (next: map<OAuthIdentity, (nat, nat)>)
    requires Family(env, all) && FamilyInv(env, all, s, homes) && (step.Call? ==> step.identity in all)
    ensures FamilyInv(env, all, Apply(env, s, step), next)
  {
    next := homes;
    if step.Advance? && Enabled(s, step) {
      var fibre := s.fibres[step.f];
      var i := fibre.identity;
      Moves(env, s, step);
      AdvanceConsistent(env, s.tables, fibre, step.uid, step.aid);
      hide Consistent, Apply, Advanced, FibreSettled;
      var (t2, moved, published) := Advanced(env, s.tables, fibre, step.uid, step.aid);
      if i in homes {
        StepAtHome(env, s.tables, fibre, step.uid, step.aid, homes[i]);
        TokensOnly(env, all, s, homes, step.f, State(t2, s.fibres[step.f := moved], s.events + published));
      } else {
        StepFromNothing(env, s.tables, fibre, step.uid, step.aid);
        if fibre.pc.Creating? {
          next := homes[i := (step.uid, step.aid)];
          NewHome(env, all, s, homes, step.f, State(t2, s.fibres[step.f := moved], s.events + published), step.uid,
                  step.aid);
        }
      }
    }
  }

  lemma TokensOnly(env: Env, all: set<OAuthIdentity>, s: State, homes: map<OAuthIdentity, (nat, nat)>, f: nat, t: State)
    requires Family(env, all) && FamilyInv(env, all, s, homes) && f in s.fibres && f in t.fibres
             && t.fibres == s.fibres[f := t.fibres[f]]
    requires var i := s.fibres[f].identity;
             && i in homes && t.fibres[f].identity == i && Consistent(t.tables) && t.tables.users == s.tables.users
             && homes[i].1 in t.tables.accounts
             && (t.tables == s.tables
                 || t.tables.accounts == s.tables.accounts[homes[i].1 := t.tables.accounts[homes[i].1]])
             && Home(env, t.tables, i, homes[i]) && FibreAt(env, t.tables, t.fibres[f], Some(homes[i]))
    ensures FamilyInv(env, all, t, homes)
  {
    hide Consistent, FibreSettled;
    var i := s.fibres[f].identity;
    assert Home(env, s.tables, i, homes[i]) by { assert Placed(env, s.tables, i, HomeOf(homes, i)); }
    forall j | j in all ensures Placed(env, t.tables, j, HomeOf(homes, j)) {
      assert Placed(env, s.tables, j, HomeOf(homes, j));
      RetokenedPlaced(env, s.tables, t.tables, homes[i].1, j, HomeOf(homes, j));
    }
    forall g | g in s.fibres && g != f
      ensures FibreAt(env, t.tables, s.fibres[g], HomeOf(homes, s.fibres[g].identity)) {
      assert FibreAt(env, s.tables, s.fibres[g], HomeOf(homes, s.fibres[g].identity));
      RetokenedFibre(env, s.tables, t.tables, homes[i].1, s.fibres[g], HomeOf(homes, s.fibres[g].identity));
    }
  }

  lemma RetokenedFibre(env: Env, t: Tables, t2: Tables, a: nat, fibre: Fibre, home: Option<(nat, nat)>)
    requires FibreAt(env, t, fibre, home) && a in t.accounts && a in t2.accounts
             && SameAccount(t2.accounts[a], t.accounts[a])
    requires t2.users == t.users && (t2 == t || t2.accounts == t.accounts[a := t2.accounts[a]])
    ensures FibreAt(env, t2, fibre, home)
  {
  }

  lemma RetokenedPlaced(env: Env, t: Tables, t2: Tables, a: nat, j: OAuthIdentity, home: Option<(nat, nat)>)
    requires Placed(env, t, j, home) && a in t.accounts && a in t2.accounts
             && SameAccount(t2.accounts[a], t.accounts[a])
    requires t2.users == t.users && (t2 == t || t2.accounts == t.accounts[a := t2.accounts[a]])
    ensures Placed(env, t2, j, home)
  {
    if IdentityTaken(t2, j.issuer, j.accountId) {
      var b :| b in t2.accounts && Names(t2.accounts[b], j.issuer, j.accountId);
      assert Names(t.accounts[b], j.issuer, j.accountId);
    }
    if EmailTaken(t2, env.normalize(j.email)) {
      var u :| u in t2.users && t2.users[u].email == env.normalize(j.email);
      assert t.users[u].email == env.normalize(j.email);
    }
  }

  lemma NewHome(env: Env, all: set<OAuthIdentity>, s: State, homes: map<OAuthIdentity, (nat, nat)>, f: nat, t: State,
                uid: nat, aid: nat)
    requires Family(env, all) && FamilyInv(env, all, s, homes) && f in s.fibres && f in t.fibres
             && t.fibres == s.fibres[f := t.fibres[f]]
    requires uid !in s.tables.users && aid !in s.tables.accounts && Consistent(t.tables)
    requires var i := s.fibres[f].identity;
             && i !in homes && t.fibres[f].identity == i && NewUser(env, i, uid).Some?
             && t.tables == Tables(s.tables.users[uid := NewUser(env, i, uid).value],
                                   s.tables.accounts[aid := NewAccount(aid, i, s.fibres[f].tokens, uid)])
             && Home(env, t.tables, i, (uid, aid)) && FibreAt(env, t.tables, t.fibres[f], Some((uid, aid)))
    ensures FamilyInv(env, all, t, homes[s.fibres[f].identity := (uid, aid)])
  {
    hide Consistent;
    var i := s.fibres[f].identity;
    var next := homes[i := (uid, aid)];
    forall j | j in all ensures Placed(env, t.tables, j, HomeOf(next, j)) {
      if j != i {
        assert Apart(env, i, j) && Placed(env, s.tables, j, HomeOf(homes, j));
        OthersStayPlaced(env, s.tables, NewUser(env, i, uid).value, NewAccount(aid, i, s.fibres[f].tokens, uid), j,
                         HomeOf(homes, j));
      }
    }
    forall g | g in s.fibres && g != f ensures FibreAt(env, t.tables, s.fibres[g], HomeOf(next, s.fibres[g].identity)) {
      assert FibreAt(env, s.tables, s.fibres[g], HomeOf(homes, s.fibres[g].identity));
    }
  }

  predicate CallsFrom(steps: seq<Step>, all: set<OAuthIdentity>) {
    forall k :: 0 <= k < |steps| && steps[k].Call? ==> steps[k].identity in all
  }

  lemma {:induction false} FamilyRun(env: Env, all: set<OAuthIdentity>, s: State, homes: map<OAuthIdentity, (nat, nat)>,
                                     steps: seq<Step>)
    requires Family(env, all) && FamilyInv(env, all, s, homes) && CallsFrom(steps, all)
    ensures exists end :: FamilyInv(env, all, Run(env, s, steps), end)
    decreases |steps|
  {
    hide Apply, FamilyInv, Family;
    if steps != [] {
      var next := FamilyStep(env, all, s, homes, steps[0]);
      FamilyRun(env, all, Apply(env, s, steps[0]), next, steps[1..]);
      assert Run(env, s, steps) == Run(env, Apply(env, s, steps[0]), steps[1..]);
    } else {
      assert FamilyInv(env, all, Run(env, s, steps), homes);
    }
  }

  /**
    Callbacks for identities that share neither name nor address, under hooks that leave both:
    every one lands, or is turned away, within its single retry.
   */
  lemma FamilyLands(env: Env, t: Tables, all: set<OAuthIdentity>, steps: seq<Step>, f: nat)
    requires Family(env, all) && Consistent(t) && (forall i :: i in all ==> Absent(env, t, i)) && CallsFrom(steps, all)
    requires Finished(Run(env, Initial(t), steps), f)
    ensures var fibre := Run(env, Initial(t), steps).fibres[f];
            fibre.pc.result.Linked? || (fibre.pc.result.AccountAlreadyLinked? && !fibre.identity.emailVerified)
  {
    assert FamilyInv(env, all, Initial(t), map[]);
    FamilyRun(env, all, Initial(t), map[], steps);
    var s := Run(env, Initial(t), steps);
    var homes :| FamilyInv(env, all, s, homes);
    var fibre := s.fibres[f];
    assert FibreAt(env, s.tables, fibre, HomeOf(homes, fibre.identity));
    assert Placed(env, s.tables, fibre.identity, HomeOf(homes, fibre.identity));
  }

  predicate RanOut(s: State, f: nat) { Finished(s, f) && s.fibres[f].pc.result == Failed(UniqueViolation) }

  /** Whatever id it draws, the identity's user is stored with this address, verified or not. */
  ghost predicate StoredAs(env: Env, i: OAuthIdentity, email: string, verified: bool) {
    forall id :: NewUser(env, i, id).Some? && NewUser(env, i, id).value.email == email
                 && NewUser(env, i, id).value.emailVerified == verified
  }

  /** A callback that finds its stored address in somebody else's hands tries to write all the same. */
  predicate Persists(env: Env, i: OAuthIdentity, email: string, verified: bool) {
    || env.normalize(i.email) != email
    || CanLinkImplicitly(i.providerId, i.emailVerified, verified, env.trustedProviders)
  }

  /** Two new identities under hooks that never refuse. */
  ghost predicate TwoNew(env: Env, t: Tables, x: OAuthIdentity, y: OAuthIdentity) {
    && NeverRefuses(env, x) && NeverRefuses(env, y) && !SameName(x, y)
    && Consistent(t) && BrandNew(env, t, x) && BrandNew(env, t, y)
  }

  ghost predicate NobodyCanRunOut(env: Env, t: Tables, x: OAuthIdentity, y: OAuthIdentity) {
    forall steps, f :: CallsFrom(steps, {x, y}) ==> !RanOut(Run(env, Initial(t), steps), f)
  }

  /**
    Two identities, any callbacks of theirs, in any interleaving: none can exhaust its
    retry exactly when their stored addresses differ, or when neither would write once
    the other has the address. For two verified addresses left alone: when they differ.
   */
  lemma SingleRetrySufficesExactly(env: Env, t: Tables, x: OAuthIdentity, y: OAuthIdentity, ex: string, vx: bool,
                                   ey: string, vy: bool)
    requires TwoNew(env, t, x, y) && StoredAs(env, x, ex, vx) && StoredAs(env, y, ey, vy)
    ensures NobodyCanRunOut(env, t, x, y) <==> ex != ey || (!Persists(env, x, ey, vy) && !Persists(env, y, ex, vx))
  {
    if ex != ey {
      DifferentAddresses(env, t, x, y, ex, vx, ey, vy);
    } else if Persists(env, x, ey, vy) {
      RunsOut(env, t, x, y, ey, vx, vy);
    } else if Persists(env, y, ex, vx) {
      assert {y, x} == {x, y};
      RunsOut(env, t, y, x, ex, vy, vx);
    } else {
      NeitherWrites(env, t, x, y, ex, vx, vy);
    }
  }

  lemma DifferentAddresses(env: Env, t: Tables, x: OAuthIdentity, y: OAuthIdentity, ex: string, vx: bool, ey: string,
                           vy: bool)
    requires TwoNew(env, t, x, y) && StoredAs(env, x, ex, vx) && StoredAs(env, y, ey, vy) && ex != ey
    ensures NobodyCanRunOut(env, t, x, y)
  {
    forall steps, f | CallsFrom(steps, {x, y}) ensures !RanOut(Run(env, Initial(t), steps), f) {
      NobodyRunsOut(env, t, {x, y}, steps, f);
    }
  }

  /** Neither writes once the other has the address they share. */
  ghost predicate Deferring(env: Env, x: OAuthIdentity, y: OAuthIdentity, email: string, vx: bool, vy: bool) {
    && NeverRefuses(env, x) && NeverRefuses(env, y) && !SameName(x, y)
    && StoredAs(env, x, email, vx) && StoredAs(env, y, email, vy) && !Persists(env, x, email, vy)
    && !Persists(env, y, email, vx)
  }

  ghost predicate Undecided(s: State, x: OAuthIdentity, y: OAuthIdentity, email: string) {
    && !EmailTaken(s.tables, email) && !Taken(s.tables, x) && !Taken(s.tables, y)
    && forall f :: f in s.fibres ==> s.fibres[f].identity in {x, y} && s.fibres[f].attempt == 0
                                     && (s.fibres[f].pc.Seeking? || s.fibres[f].pc.Unknown? || s.fibres[f].pc.Creating?)
  }

  /** The loser's callbacks never come to a link, and create nothing on their second attempt. */
  predicate Turned(fibre: Fibre) {
    && fibre.attempt <= 1 && !fibre.pc.Known? && !fibre.pc.Refreshing? && !fibre.pc.Linking?
    && (fibre.pc.Creating? ==> fibre.attempt == 0) && fibre.pc != Done(Failed(UniqueViolation))
  }

  /** `won` has the address, and its user is verified or not; `lost` has nothing. */
  predicate Divided(t: Tables, won: OAuthIdentity, lost: OAuthIdentity, email: string, verified: bool) {
    && Keyed(t) && Taken(t, won) && !Taken(t, lost) && EmailTaken(t, email)
    && forall u :: u in t.users && t.users[u].email == email ==> t.users[u].emailVerified == verified
  }

  predicate OnItsSide(t: Tables, won: OAuthIdentity, lost: OAuthIdentity, fibre: Fibre) {
    if fibre.identity == won then SecondFinds(t, fibre) else fibre.identity == lost && Turned(fibre)
  }

  ghost predicate Decided(s: State, won: OAuthIdentity, lost: OAuthIdentity, email: string, verified: bool) {
    && Divided(s.tables, won, lost, email, verified)
    && forall f :: f in s.fibres ==> OnItsSide(s.tables, won, lost, s.fibres[f])
  }

  ghost predicate EitherWins(s: State, x: OAuthIdentity, y: OAuthIdentity, email: string, vx: bool, vy: bool) {
    || (Keyed(s.tables) && Undecided(s, x, y, email))
    || Decided(s, x, y, email, vx)
    || Decided(s, y, x, email, vy)
  }

  lemma FirstCommitDecides(env: Env, s: State, x: OAuthIdentity, y: OAuthIdentity, email: string, vx: bool, vy: bool,
                           step: Step)
    requires Deferring(env, x, y, email, vx, vy) && Keyed(s.tables) && Undecided(s, x, y, email)
    requires step.Call? ==> step.identity in {x, y}
    ensures EitherWins(Apply(env, s, step), x, y, email, vx, vy)
  {
    if step.Advance? && Enabled(s, step) {
      var fibre := s.fibres[step.f];
      var i := fibre.identity;
      Moves(env, s, step);
      if fibre.pc.Creating? {
        CreateTries(env, s.tables, fibre, step.uid, step.aid);
        Adds(env, s.tables, fibre, step.uid, step.aid);
        CreatedDecides(env, s, Apply(env, s, step), fibre, step.uid, step.aid, if i == x then y else x, email,
                       if i == x then vx else vy);
        CreatingDone(env, s.tables, fibre, step.uid, step.aid);
      }
    }
  }

  lemma CreatingDone(env: Env, t: Tables, fibre: Fibre, uid: nat, aid: nat)
    requires fibre.pc.Creating? && Advanced(env, t, fibre, uid, aid).0 != t
    ensures Advanced(env, t, fibre, uid, aid).1.pc.Done? && Advanced(env, t, fibre, uid, aid).1.pc.result.Linked?
  {
  }

  lemma CreatedDecides(env: Env, s: State, end: State, fibre: Fibre, uid: nat, aid: nat, lost: OAuthIdentity,
                       email: string, verified: bool)
    requires !SameName(fibre.identity, lost) && !EmailTaken(s.tables, email) && !Taken(s.tables, lost)
             && Keyed(s.tables)
    requires StoredAs(env, fibre.identity, email, verified) && uid !in s.tables.users && aid !in s.tables.accounts
    requires var user := NewUser(env, fibre.identity, uid).value;
             end.tables == Tables(s.tables.users[uid := user],
                                  s.tables.accounts[aid := NewAccount(aid, fibre.identity, fibre.tokens, uid)])
    ensures Divided(end.tables, fibre.identity, lost, email, verified)
  {
    assert Names(end.tables.accounts[aid], fibre.identity.issuer, fibre.identity.accountId);
    assert end.tables.users[uid].email == email;
    if Taken(end.tables, lost) {
      var a :| a in end.tables.accounts && Names(end.tables.accounts[a], lost.issuer, lost.accountId);
      assert a != aid && Names(s.tables.accounts[a], lost.issuer, lost.accountId);
    }
  }

  /** Once one identity has won nothing is written but tokens, and every fibre stays on its side. */
  lemma DecidedTables(env: Env, t: Tables, won: OAuthIdentity, lost: OAuthIdentity, email: string, vw: bool, vl: bool,
                      fibre: Fibre, uid: nat, aid: nat)
    requires Deferring(env, won, lost, email, vw, vl) && Divided(t, won, lost, email, vw)
             && OnItsSide(t, won, lost, fibre)
    requires uid !in t.users && aid !in t.accounts
    ensures var end := Advanced(env, t, fibre, uid, aid).0;
            && end.users == t.users && end.accounts.Keys == t.accounts.Keys
            && forall a :: a in t.accounts ==> SameAccount(end.accounts[a], t.accounts[a])
  {
    var i := fibre.identity;
    if i == won {
      AttemptLoses(env, t, i, uid, aid);
    } else {
      assert InsertUser(t, NewUser(env, i, uid).value) == Failure(UniqueViolation);
    }
  }

  lemma LoserStep(env: Env, t: Tables, won: OAuthIdentity, lost: OAuthIdentity, email: string, vw: bool, vl: bool,
                  fibre: Fibre, uid: nat, aid: nat)
    requires Deferring(env, won, lost, email, vw, vl) && Divided(t, won, lost, email, vw)
    requires fibre.identity == lost && Turned(fibre)
    ensures var next := Advanced(env, t, fibre, uid, aid).1; next.identity == lost && Turned(next)
  {
    match fibre.pc
    case Creating => assert InsertUser(t, NewUser(env, lost, uid).value) == Failure(UniqueViolation);
    case Unknown => assert FindByEmail(t, env.normalize(lost.email)).Some?;
    case _ =>
  }

  lemma DecidedStep(env: Env, s: State, won: OAuthIdentity, lost: OAuthIdentity, email: string, vw: bool, vl: bool,
                    step: Step)
    requires Deferring(env, won, lost, email, vw, vl) && Decided(s, won, lost, email, vw)
    requires step.Call? ==> step.identity in {won, lost}
    ensures Decided(Apply(env, s, step), won, lost, email, vw)
  {
    if step.Advance? && Enabled(s, step) {
      var t, fibre := s.tables, s.fibres[step.f];
      Moves(env, s, step);
      DecidedTables(env, t, won, lost, email, vw, vl, fibre, step.uid, step.aid);
      if fibre.identity == won {
        WinnerFollows(env, t, won, lost, email, vw, vl);
        SecondFindsStep(env, {won}, t, fibre, step.uid, step.aid);
      } else {
        LoserStep(env, t, won, lost, email, vw, vl, fibre, step.uid, step.aid);
      }
      Adds(env, t, fibre, step.uid, step.aid);
      hide Apply, Advanced;
      var t2 := Advanced(env, t, fibre, step.uid, step.aid).0;
      StillDivided(t, t2, won, lost, email, vw);
      forall g | g in s.fibres && g != step.f ensures OnItsSide(t2, won, lost, s.fibres[g]) {
        assert OnItsSide(t, won, lost, s.fibres[g]);
      }
    }
  }

  lemma WinnerFollows(env: Env, t: Tables, won: OAuthIdentity, lost: OAuthIdentity, email: string, vw: bool, vl: bool)
    requires Divided(t, won, lost, email, vw)
    ensures AddressFollows(env, {won}, t)
  {
  }

  lemma StillDivided(t: Tables, t2: Tables, won: OAuthIdentity, lost: OAuthIdentity, email: string, verified: bool)
    requires Divided(t, won, lost, email, verified) && Keyed(t2) && t2.users == t.users
             && t2.accounts.Keys == t.accounts.Keys
    requires forall a :: a in t.accounts ==> SameAccount(t2.accounts[a], t.accounts[a])
    ensures Divided(t2, won, lost, email, verified)
  {
    TakenForGood(t, t2, won);
    if Taken(t2, lost) {
      TakenForGood(t2, t, lost);
    }
  }

  lemma {:induction false} EitherWinsAlways(env: Env, s: State, x: OAuthIdentity, y: OAuthIdentity, email: string,
                                            vx: bool, vy: bool, steps: seq<Step>)
    requires Deferring(env, x, y, email, vx, vy) && EitherWins(s, x, y, email, vx, vy) && CallsFrom(steps, {x, y})
    ensures EitherWins(Run(env, s, steps), x, y, email, vx, vy)
    decreases |steps|
  {
    if steps != [] {
      var step := steps[0];
      if Keyed(s.tables) && Undecided(s, x, y, email) {
        FirstCommitDecides(env, s, x, y, email, vx, vy, step);
      } else if Decided(s, x, y, email, vx) {
        DecidedStep(env, s, x, y, email, vx, vy, step);
      } else {
        DecidedStep(env, s, y, x, email, vy, vx, step);
      }
      hide Apply, EitherWins, Deferring;
      EitherWinsAlways(env, Apply(env, s, step), x, y, email, vx, vy, steps[1..]);
    }
  }

  lemma NeitherWrites(env: Env, t: Tables, x: OAuthIdentity, y: OAuthIdentity, email: string, vx: bool, vy: bool)
    requires TwoNew(env, t, x, y) && Deferring(env, x, y, email, vx, vy)
    ensures NobodyCanRunOut(env, t, x, y)
  {
    forall steps, f | CallsFrom(steps, {x, y}) ensures !RanOut(Run(env, Initial(t), steps), f) {
      assert NewUser(env, x, 0).value.email == email;
      assert Undecided(Initial(t), x, y, email);
      EitherWinsAlways(env, Initial(t), x, y, email, vx, vy, steps);
      NoneRanOut(Run(env, Initial(t), steps), x, y, email, vx, vy, f);
    }
  }

  lemma NoneRanOut(s: State, x: OAuthIdentity, y: OAuthIdentity, email: string, vx: bool, vy: bool, f: nat)
    requires EitherWins(s, x, y, email, vx, vy)
    ensures !RanOut(s, f)
  {
  }

  /** Everything two identities that share an address need for the runs below. */
  ghost predicate Rivals(env: Env, t: Tables, x: OAuthIdentity, y: OAuthIdentity, email: string, vx: bool, vy: bool) {
    && TwoNew(env, t, x, y) && StoredAs(env, x, email, vx) && StoredAs(env, y, email, vy) && Persists(env, x, email, vy)
  }

  lemma RunsOut(env: Env, t: Tables, x: OAuthIdentity, y: OAuthIdentity, email: string, vx: bool, vy: bool)
    requires Rivals(env, t, x, y, email, vx, vy)
    ensures exists steps, f :: CallsFrom(steps, {x, y}) && RanOut(Run(env, Initial(t), steps), f)
  {
    if env.normalize(x.email) == email {
      LosesTwice(env, t, x, y, email, vx, vy);
    } else {
      NeverFinds(env, t, x, y, email, vx, vy);
    }
  }

  /** `y` has committed, with the address; of `x` one callback is about to create its user and one has just begun. */
  ghost predicate RivalHolds(env: Env, s: State, x: OAuthIdentity, y: OAuthIdentity, email: string, uid: nat) {
    && uid in s.tables.users && NewUser(env, y, uid) == Some(s.tables.users[uid]) && s.tables.users[uid].email == email
    && (forall v :: v in s.tables.users && s.tables.users[v].email == email ==> v == uid)
    && !Taken(s.tables, x) && (env.normalize(x.email) != email ==> !EmailTaken(s.tables, env.normalize(x.email)))
    && 0 in s.fibres && s.fibres[0] == Fibre(x, None, 0, Creating)
    && 2 in s.fibres && s.fibres[2] == Fibre(x, None, 0, Seeking)
  }

  lemma RivalCommits(env: Env, t: Tables, x: OAuthIdentity, y: OAuthIdentity, email: string, vx: bool, vy: bool)
    returns (steps: seq<Step>, uid: nat)
    requires Rivals(env, t, x, y, email, vx, vy)
    ensures CallsFrom(steps, {x, y}) && RivalHolds(env, Run(env, Initial(t), steps), x, y, email, uid)
  {
    hide Apply, Advanced, Consistent;
    FreshFor(t.users.Keys);
    uid :| uid !in t.users.Keys;
    FreshFor(t.accounts.Keys);
    var aid: nat :| aid !in t.accounts.Keys;
    var first := AllFoundNothing(env, t, x, y, uid, aid);
    var s := Run(env, Initial(t), first);
    assert NewUser(env, x, uid).value.email == email;
    Moves(env, s, Advance(1, uid, aid));
    CreateTries(env, t, s.fibres[1], uid, aid);
    RunSnoc(env, Initial(t), first, Advance(1, uid, aid));
    steps := first + [Advance(1, uid, aid)];
    var held := Apply(env, s, Advance(1, uid, aid)).tables;
    assert forall b :: b in t.accounts ==> !Names(t.accounts[b], x.issuer, x.accountId);
    assert !Taken(held, x);
  }

  /** The rewritten address is the rival's and the reported one nobody's: even alone, both attempts end at the index. */
  lemma NeverFinds(env: Env, t: Tables, x: OAuthIdentity, y: OAuthIdentity, email: string, vx: bool, vy: bool)
    requires Rivals(env, t, x, y, email, vx, vy) && env.normalize(x.email) != email
    ensures exists steps, f :: CallsFrom(steps, {x, y}) && RanOut(Run(env, Initial(t), steps), f)
  {
    hide Apply, Advanced, Consistent;
    var first, uid := RivalCommits(env, t, x, y, email, vx, vy);
    var s := Run(env, Initial(t), first);
    FreshFor(s.tables.users.Keys);
    var u: nat :| u !in s.tables.users.Keys;
    FreshFor(s.tables.accounts.Keys);
    var a: nat :| a !in s.tables.accounts.Keys;
    var step := Advance(2, u, a);
    assert EmailTaken(s.tables, email);
    BlockedAttempt(env, s, step);
    var s1 := Apply(env, s, step);
    var s2 := Apply(env, s1, step);
    var s3 := Apply(env, s2, step);
    BlockedAttempt(env, s3, step);
    var s4 := Apply(env, s3, step);
    var s5 := Apply(env, s4, step);
    var s6 := Apply(env, s5, step);
    var last := [step, step, step, step, step, step];
    RunsThrough(env, last, [s, s1, s2, s3, s4, s5, s6]);
    RunSplit(env, Initial(t), first, last);
    var all := first + last;
    assert forall k :: |first| <= k < |all| ==> all[k] == last[k - |first|];
    assert RanOut(Run(env, Initial(t), all), 2);
  }

  /** Three statements of a fibre whose stored address is held and whose reported one is not. */
  lemma BlockedAttempt(env: Env, s: State, step: Step)
    requires step.Advance? && Enabled(s, step) && s.fibres[step.f].pc.Seeking?
    requires var i := s.fibres[step.f].identity;
             && NeverRefuses(env, i) && !Taken(s.tables, i) && !EmailTaken(s.tables, env.normalize(i.email))
             && forall id :: EmailTaken(s.tables, NewUser(env, i, id).value.email)
    ensures Apply(env, Apply(env, Apply(env, s, step), step), step)
         == s.(fibres := s.fibres[step.f := Retried(s.fibres[step.f], UniqueViolation)])
  {
    hide Apply, Advanced;
    var t, fibre := s.tables, s.fibres[step.f];
    Moves(env, s, step);
    SeekMiss(env, t, fibre, step.uid, step.aid);
    var s1 := Apply(env, s, step);
    Moves(env, s1, step);
    AddressMiss(env, t, s1.fibres[step.f], step.uid, step.aid);
    var s2 := Apply(env, s1, step);
    Moves(env, s2, step);
    CreateTries(env, t, s2.fibres[step.f], step.uid, step.aid);
    CreatePublishesNothing(env, t, s2.fibres[step.f], step.uid, step.aid);
    RetriedAlike(fibre, UniqueViolation);
  }

  lemma CreatePublishesNothing(env: Env, t: Tables, fibre: Fibre, uid: nat, aid: nat)
    requires fibre.pc.Creating?
    ensures Advanced(env, t, fibre, uid, aid).1 == Retried(fibre, UniqueViolation) ==>
              Advanced(env, t, fibre, uid, aid).2 == []
  {
  }

  /** The first attempt loses the address to the rival, the second loses the identity to a twin of its own. */
  lemma LosesTwice(env: Env, t: Tables, x: OAuthIdentity, y: OAuthIdentity, email: string, vx: bool, vy: bool)
    requires Rivals(env, t, x, y, email, vx, vy) && env.normalize(x.email) == email
    ensures exists steps, f :: CallsFrom(steps, {x, y}) && RanOut(Run(env, Initial(t), steps), f)
  {
    hide Apply, Advanced, Consistent;
    var first, uid := AddressLost(env, t, x, y, email, vx, vy);
    var s := Run(env, Initial(t), first);
    var held := s.tables;
    var user := held.users[uid];
    FreshFor(held.users.Keys);
    var u: nat :| u !in held.users.Keys;
    FreshFor(held.accounts.Keys);
    var a: nat :| a !in held.accounts.Keys;
    FreshFor(held.accounts.Keys + {a});
    var b: nat :| b !in held.accounts.Keys + {a};
    var linked := held.(accounts := held.accounts[a := NewAccount(a, x, None, uid)]);
    var last := [Advance(2, u, a), Advance(2, u, a), Advance(2, u, a), Advance(0, u, b), Advance(0, u, b)];
    var s1 := Apply(env, s, last[0]);
    var s2 := Apply(env, s1, last[1]);
    var s3 := Apply(env, s2, last[2]);
    var s4 := Apply(env, s3, last[3]);
    var s5 := Apply(env, s4, last[4]);
    Moves(env, s, last[0]);
    SeekMiss(env, held, s.fibres[2], u, a);
    Moves(env, s1, last[1]);
    AddressHit(env, held, s1.fibres[2], u, a, user);
    Moves(env, s2, last[2]);
    LinkInserts(env, held, s2.fibres[2], u, a);
    assert s3.tables == linked && s3.fibres[0] == Fibre(x, None, 1, Unknown);
    Moves(env, s3, last[3]);
    AddressHit(env, linked, s3.fibres[0], u, b, user);
    Moves(env, s4, last[4]);
    assert Names(linked.accounts[a], x.issuer, x.accountId);
    LinkInserts(env, linked, s4.fibres[0], u, b);
    assert s5.fibres[0].pc == Done(Failed(UniqueViolation));
    RunsThrough(env, last, [s, s1, s2, s3, s4, s5]);
    RunSplit(env, Initial(t), first, last);
    var all := first + last;
    assert forall k :: |first| <= k < |all| ==> all[k] == last[k - |first|];
    assert RanOut(Run(env, Initial(t), all), 0);
  }

  /** The first attempt has found the address gone, and the second has looked for the identity and not found it. */
  lemma AddressLost(env: Env, t: Tables, x: OAuthIdentity, y: OAuthIdentity, email: string, vx: bool, vy: bool)
    returns (steps: seq<Step>, uid: nat)
    requires Rivals(env, t, x, y, email, vx, vy) && env.normalize(x.email) == email
    ensures CallsFrom(steps, {x, y})
    ensures var s := Run(env, Initial(t), steps);
            && uid in s.tables.users && NewUser(env, y, uid) == Some(s.tables.users[uid])
            && s.tables.users[uid].email == email
            && (forall v :: v in s.tables.users && s.tables.users[v].email == email ==> v == uid)
            && !Taken(s.tables, x)
            && 0 in s.fibres && s.fibres[0] == Fibre(x, None, 1, Unknown)
            && 2 in s.fibres && s.fibres[2] == Fibre(x, None, 0, Seeking)
  {
    hide Apply, Advanced, Consistent;
    var first;
    first, uid := RivalCommits(env, t, x, y, email, vx, vy);
    var s := Run(env, Initial(t), first);
    var held := s.tables;
    FreshFor(held.users.Keys);
    var u: nat :| u !in held.users.Keys;
    FreshFor(held.accounts.Keys);
    var a: nat :| a !in held.accounts.Keys;
    var step := Advance(0, u, a);
    var s1 := Apply(env, s, step);
    var s2 := Apply(env, s1, step);
    assert EmailTaken(held, email);
    Moves(env, s, step);
    CreateTries(env, held, s.fibres[0], u, a);
    Moves(env, s1, step);
    SeekMiss(env, held, s1.fibres[0], u, a);
    RunsThrough(env, [step, step], [s, s1, s2]);
    RunSplit(env, Initial(t), first, [step, step]);
    steps := first + [step, step];
  }

  lemma AllFoundNothing(env: Env, t: Tables, x: OAuthIdentity, y: OAuthIdentity, uid: nat, aid: nat)
      returns (steps: seq<Step>)
    requires Absent(env, t, x) && Absent(env, t, y) && uid !in t.users && aid !in t.accounts
    ensures CallsFrom(steps, {x, y})
    ensures var s := Run(env, Initial(t), steps);
            && s.tables == t
            && s.fibres
              == map[0 := Fibre(x, None, 0, Creating), 1 := Fibre(y, None, 0, Creating),
                     2 := Fibre(x, None, 0, Seeking)]
  {
    steps := [Call(0, x, None), Call(1, y, None), Call(2, x, None), Advance(0, uid, aid), Advance(0, uid, aid),
              Advance(1, uid, aid), Advance(1, uid, aid)];
    hide Apply, Advanced;
    var s1 := Apply(env, Initial(t), steps[0]);
    var s2 := Apply(env, s1, steps[1]);
    var s3 := Apply(env, s2, steps[2]);
    Starts(env, Initial(t), steps[0]);
    Starts(env, s1, steps[1]);
    Starts(env, s2, steps[2]);
    var s4 := Apply(env, s3, steps[3]);
    var s5 := Apply(env, s4, steps[4]);
    var s6 := Apply(env, s5, steps[5]);
    var s7 := Apply(env, s6, steps[6]);
    Moves(env, s3, steps[3]);
    SeekMiss(env, t, s3.fibres[0], uid, aid);
    Moves(env, s4, steps[4]);
    AddressMiss(env, t, s4.fibres[0], uid, aid);
    Moves(env, s5, steps[5]);
    SeekMiss(env, t, s5.fibres[1], uid, aid);
    Moves(env, s6, steps[6]);
    AddressMiss(env, t, s6.fibres[1], uid, aid);
    RunsThrough(env, steps, [Initial(t), s1, s2, s3, s4, s5, s6, s7]);
  }

  // ---------------------------------------------------------------------------
  // Ways in
  // ---------------------------------------------------------------------------

  const CREDENTIAL_ISSUER := "local:credential"

  /** A credential row without a hash is a placeholder, not a way in. */
  predicate CanSignIn(a: Account) { a.issuer != CREDENTIAL_ISSUER || a.passwordHash.Some? }

  function AccountsOf(t: Tables, userId: nat): set<nat> { set a | a in t.accounts && t.accounts[a].userId == userId }

  // ---------------------------------------------------------------------------
  // The service, call by call
  // ---------------------------------------------------------------------------

  /** One call left alone until it is done. */
  ghost function Alone(env: Env, t: Tables, fibre: Fibre, uid: nat, aid: nat): (LinkResult, Tables)
    decreases Fuel(fibre)
  {
    if fibre.pc.Done? then (fibre.pc.result, t)
    else
      var (t2, next, _) := Advanced(env, t, fibre, uid, aid);
      Alone(env, t2, next, uid, aid)
  }

  lemma AloneCreates(env: Env, t: Tables, fibre: Fibre, uid: nat, aid: nat)
    requires fibre.pc.Seeking? && !EmailTaken(t, env.normalize(fibre.identity.email))
    requires !IdentityTaken(t, fibre.identity.issuer, fibre.identity.accountId)
    ensures var created := CreateBoth(env, t, fibre.identity, fibre.tokens, uid, aid);
            Alone(env, t, fibre, uid, aid) ==
            if created.Failure? then Alone(env, t, Retried(fibre, created.error), uid, aid)
            else (Linked(NewUser(env, fibre.identity, uid).value, NewAccount(aid, fibre.identity, fibre.tokens, uid),
                         true, true), created.value)
  {
    hide CreateBoth, Advanced, Retried;
    var unknown, creating := fibre.(pc := Unknown), fibre.(pc := Creating);
    SeekMiss(env, t, fibre, uid, aid);
    AddressMiss(env, t, unknown, uid, aid);
    CreatingStep(env, t, creating, uid, aid);
    AloneStep(env, t, fibre, uid, aid);
    AloneStep(env, t, unknown, uid, aid);
    AloneStep(env, t, creating, uid, aid);
    var created := CreateBoth(env, t, fibre.identity, fibre.tokens, uid, aid);
    if created.Failure? {
      RetriedAlike(fibre, created.error);
    }
  }

  lemma AloneSignsIn(env: Env, t: Tables, fibre: Fibre, uid: nat, aid: nat, id: nat)
    requires fibre.pc.Seeking? && Indexed(t) && id in t.accounts
    requires Names(t.accounts[id], fibre.identity.issuer, fibre.identity.accountId)
    ensures var held, tokens := t.accounts[id], fibre.tokens;
            Alone(env, t, fibre, uid, aid) ==
            if held.userId !in t.users then (UserNotFound, t)
            else (Linked(t.users[held.userId], RefreshedAccount(t, held, tokens), false, false),
                  RefreshedTables(t, held, tokens))
  {
    hide RefreshedAccount, RefreshedTables;
    var held := t.accounts[id];
    assert FindAccount(t, fibre.identity.issuer, fibre.identity.accountId) == Some(held);
    AloneStep(env, t, fibre, uid, aid);
    AloneStep(env, t, fibre.(pc := Known(held)), uid, aid);
    if held.userId in t.users {
      AloneStep(env, t, fibre.(pc := Refreshing(held, t.users[held.userId])), uid, aid);
    }
  }

  lemma AloneStep(env: Env, t: Tables, fibre: Fibre, uid: nat, aid: nat)
    requires !fibre.pc.Done?
    ensures var step := Advanced(env, t, fibre, uid, aid);
            && Alone(env, t, fibre, uid, aid) == Alone(env, step.0, step.1, uid, aid)
            && (step.1.pc.Done? ==> Alone(env, t, fibre, uid, aid) == (step.1.pc.result, step.0))
  {
    hide Advanced;
  }

  lemma RetriedAlike(fibre: Fibre, cause: DbError)
    ensures Retried(fibre.(pc := Creating), cause) == Retried(fibre, cause)
  {
  }

  lemma CreatingStep(env: Env, t: Tables, fibre: Fibre, uid: nat, aid: nat)
    requires fibre.pc.Creating?
    ensures var created := CreateBoth(env, t, fibre.identity, fibre.tokens, uid, aid);
            var step := Advanced(env, t, fibre, uid, aid);
            if created.Failure? then step.0 == t && step.1 == Retried(fibre, created.error)
            else && step.0 == created.value
                 && step.1 == fibre.(pc := Done(Linked(NewUser(env, fibre.identity, uid).value,
                                                       NewAccount(aid, fibre.identity, fibre.tokens, uid), true, true)))
  {
    hide CreateBoth, Retried;
  }

  /** The identity is held: its owner signs in and its tokens are refreshed, or its owner is gone. */
  lemma AnswerWhenHeld(env: Env, t: Tables, identity: OAuthIdentity, tokens: Option<string>, uid: nat, aid: nat,
                       id: nat)
    requires Indexed(t) && id in t.accounts
    requires t.accounts[id].issuer == identity.issuer && t.accounts[id].accountId == identity.accountId
    ensures var (r, end) := Alone(env, t, Fibre(identity, tokens, 0, Seeking), uid, aid);
            var held := t.accounts[id];
            if held.userId !in t.users then r == UserNotFound && end == t
            else
              var account := held.(tokens := if tokens.Some? then tokens else held.tokens);
              r == Linked(t.users[held.userId], account, false, false)
                && end == t.(accounts := t.accounts[id := account])
  {
    AloneSignsIn(env, t, Fibre(identity, tokens, 0, Seeking), uid, aid, id);
    assert t.accounts[id := t.accounts[id]] == t.accounts;
  }

  /** Nobody holds the identity and somebody its address: linked onto them, or turned away, the gate before the hook. */
  lemma AnswerByAddress(env: Env, t: Tables, identity: OAuthIdentity, tokens: Option<string>, attempt: nat, uid: nat,
                        aid: nat, u: nat)
    requires Indexed(t) && aid !in t.accounts && u in t.users && t.users[u].email == env.normalize(identity.email)
    requires forall a :: a in t.accounts ==>
               !(t.accounts[a].issuer == identity.issuer && t.accounts[a].accountId == identity.accountId)
    ensures var (r, end) := Alone(env, t, Fibre(identity, tokens, attempt, Seeking), uid, aid);
            var user := t.users[u];
            if !(identity.emailVerified && (identity.providerId in env.trustedProviders || user.emailVerified)) then
              r == AccountAlreadyLinked && end == t
            else if !env.beforeAccountLink(user, identity) then r == PolicyRefused && end == t
            else
              var account := Account(aid, identity.issuer, identity.accountId, identity.providerId, u, tokens, None);
              r == Linked(user, account, false, true) && end == t.(accounts := t.accounts[aid := account])
  {
    var fibre := Fibre(identity, tokens, attempt, Seeking);
    assert !IdentityTaken(t, identity.issuer, identity.accountId);
    SeekMiss(env, t, fibre, uid, aid);
    AddressHit(env, t, fibre.(pc := Unknown), uid, aid, t.users[u]);
    AloneStep(env, t, fibre, uid, aid);
    AloneStep(env, t, fibre.(pc := Unknown), uid, aid);
    var linking := fibre.(pc := Linking(t.users[u]));
    LinkInserts(env, t, linking, uid, aid);
    AloneStep(env, t, linking, uid, aid);
  }

  /**
    Nobody holds the identity or its address: the user the hook makes of the candidate,
    with the account, unless a hook refuses or the address the hook chose is taken.
   */
  lemma AnswerToANewcomer(env: Env, t: Tables, identity: OAuthIdentity, tokens: Option<string>, uid: nat, aid: nat)
    requires Indexed(t) && uid !in t.users && aid !in t.accounts
    requires forall a :: a in t.accounts ==>
               !(t.accounts[a].issuer == identity.issuer && t.accounts[a].accountId == identity.accountId)
    requires forall u :: u in t.users ==> t.users[u].email != env.normalize(identity.email)
    ensures var (r, end) := Alone(env, t, Fibre(identity, tokens, 0, Seeking), uid, aid);
            var email := env.normalize(identity.email);
            var name := if identity.name.Some? then identity.name.value else email;
            var answer := env.beforeUserCreate(User(uid, name, email, identity.emailVerified));
            if answer.None? then r == PolicyRefused && end == t
            else
              var user := User(uid, answer.value.name, env.normalize(answer.value.email), answer.value.emailVerified);
              var account := Account(aid, identity.issuer, identity.accountId, identity.providerId, uid, tokens, None);
              if exists u :: u in t.users && t.users[u].email == user.email
              then r == Failed(UniqueViolation) && end == t
              else if !env.afterUserCreate(user) then r == PolicyRefused && end == t
              else r == Linked(user, account, true, true)
                   && end == Tables(t.users[uid := user], t.accounts[aid := account])
  {
    var once, again := Fibre(identity, tokens, 0, Seeking), Fibre(identity, tokens, 1, Seeking);
    assert !EmailTaken(t, env.normalize(identity.email)) && !IdentityTaken(t, identity.issuer, identity.accountId);
    CreationIs(env, t, identity, tokens, uid, aid);
    AloneCreates(env, t, once, uid, aid);
    AloneCreates(env, t, again, uid, aid);
    hide CreateBoth, NewUser, NewAccount;
    assert forall cause, fibre: Fibre :: Retried(fibre, cause).pc.Done? ==>
             Alone(env, t, Retried(fibre, cause), uid, aid) == (Retried(fibre, cause).pc.result, t);
  }

  lemma CreationIs(env: Env, t: Tables, identity: OAuthIdentity, tokens: Option<string>, uid: nat, aid: nat)
    requires Indexed(t) && uid !in t.users && aid !in t.accounts
    requires !IdentityTaken(t, identity.issuer, identity.accountId)
    ensures var email := env.normalize(identity.email);
            var name := if identity.name.Some? then identity.name.value else email;
            var answer := env.beforeUserCreate(User(uid, name, email, identity.emailVerified));
            if answer.None? then CreateBoth(env, t, identity, tokens, uid, aid) == Failure(HookRefusal)
            else
              var user := User(uid, answer.value.name, env.normalize(answer.value.email), answer.value.emailVerified);
              var account := Account(aid, identity.issuer, identity.accountId, identity.providerId, uid, tokens, None);
              && NewUser(env, identity, uid) == Some(user) && NewAccount(aid, identity, tokens, uid) == account
              && CreateBoth(env, t, identity, tokens, uid, aid) ==
                 if exists u :: u in t.users && t.users[u].email == user.email then Failure(UniqueViolation)
                 else if !env.afterUserCreate(user) then Failure(HookRefusal)
                 else Success(Tables(t.users[uid := user], t.accounts[aid := account]))
  {
    var user := NewUser(env, identity, uid);
    if user.Some? && !EmailTaken(t, user.value.email) {
      assert !IdentityTaken(InsertUser(t, user.value).value, identity.issuer, identity.accountId);
    }
  }

  datatype UnlinkResult = Unlinked(account: Account) | NoSuchAccount | CannotUnlinkLastAccount

  class AccountsService {
    const env: Env
    var tables: Tables

    constructor (env: Env, tables: Tables)
      ensures this.env == env && this.tables == tables
    {
      this.env := env;
      this.tables := tables;
    }

    /** One resolution; `None` is the unique violation that `LinkOAuth` retries. */
    method AttemptLinkOAuth(identity: OAuthIdentity, tokens: Option<string>, uid: nat, aid: nat, ghost attempt: nat)
        returns (r: Option<LinkResult>)
      requires Indexed(tables) && uid !in tables.users && aid !in tables.accounts
      modifies this
      ensures r.Some? ==>
                (r.value, tables) == Alone(env, old(tables), Fibre(identity, tokens, attempt, Seeking), uid, aid)
      ensures r.None? ==>
                var again := Retried(Fibre(identity, tokens, attempt, Creating), UniqueViolation);
                && tables == old(tables)
                && Alone(env, tables, Fibre(identity, tokens, attempt, Seeking), uid, aid)
                   == Alone(env, tables, again, uid, aid)
      ensures forall u :: u in old(tables).users && old(tables).users[u].email == env.normalize(identity.email)
                          && !IdentityTaken(old(tables), identity.issuer, identity.accountId) ==>
                && r.Some?
                && (r.value == AccountAlreadyLinked <==>
                    !(identity.emailVerified
                      && (identity.providerId in env.trustedProviders || old(tables).users[u].emailVerified)))
    {
      ghost var start := Fibre(identity, tokens, attempt, Seeking);
      if id :| id in tables.accounts && Names(tables.accounts[id], identity.issuer, identity.accountId) {
        var existing := tables.accounts[id];
        assert Names(existing, identity.issuer, identity.accountId);
        AloneSignsIn(env, tables, start, uid, aid, id);
        if existing.userId !in tables.users {
          return Some(UserNotFound);
        }
        var owner := tables.users[existing.userId];
        var account := RefreshedAccount(tables, existing, tokens);
        tables := RefreshedTables(tables, existing, tokens);
        return Some(Linked(owner, account, false, false));
      }
      assert !IdentityTaken(tables, identity.issuer, identity.accountId);
      ghost var unknown := start.(pc := Unknown);
      assert Advanced(env, tables, start, uid, aid) == (tables, unknown, []);
      if id :| id in tables.users && tables.users[id].email == env.normalize(identity.email) {
        var user := tables.users[id];
        AddressHit(env, tables, unknown, uid, aid, user);
        AloneStep(env, tables, start, uid, aid);
        AloneStep(env, tables, unknown, uid, aid);
        if !CanLinkImplicitly(identity.providerId, identity.emailVerified, user.emailVerified, env.trustedProviders) {
          return Some(AccountAlreadyLinked);
        }
        if !env.beforeAccountLink(user, identity) {
          return Some(PolicyRefused);
        }
        var account := NewAccount(aid, identity, tokens, user.id);
        var inserted := tables.(accounts := tables.accounts[aid := account]);
        LinkInserts(env, tables, start.(pc := Linking(user)), uid, aid);
        tables := inserted;
        return Some(Linked(user, account, false, true));
      }
      assert !EmailTaken(tables, env.normalize(identity.email));
      var created := CreateBoth(env, tables, identity, tokens, uid, aid);
      AloneCreates(env, tables, start, uid, aid);
      match created {
        case Success(t) =>
          tables := t;
          return Some(Linked(NewUser(env, identity, uid).value, NewAccount(aid, identity, tokens, uid), true, true));
        case Failure(e) =>
          if e.HookRefusal? {
            return Some(PolicyRefused);
          }
          assert e.UniqueViolation?;
          return None;
      }
    }

    method LinkOAuth(identity: OAuthIdentity, tokens: Option<string>, uid: nat, aid: nat) returns (r: LinkResult)
      requires Indexed(tables) && uid !in tables.users && aid !in tables.accounts
      modifies this
      ensures (r, tables) == Alone(env, old(tables), Fibre(identity, tokens, 0, Seeking), uid, aid)
      ensures forall u :: u in old(tables).users && old(tables).users[u].email == env.normalize(identity.email)
                          && !IdentityTaken(old(tables), identity.issuer, identity.accountId) ==>
                (r == AccountAlreadyLinked <==>
                 !(identity.emailVerified
                   && (identity.providerId in env.trustedProviders || old(tables).users[u].emailVerified)))
    {
      for attempt := 0 to 2
        invariant tables == old(tables)
        invariant Alone(env, tables, Fibre(identity, tokens, 0, Seeking), uid, aid)
               == if attempt < 2 then Alone(env, tables, Fibre(identity, tokens, attempt, Seeking), uid, aid)
                 else (Failed(UniqueViolation), tables)
        invariant attempt > 0 ==> IdentityTaken(tables, identity.issuer, identity.accountId)
                                  || !EmailTaken(tables, env.normalize(identity.email))
      {
        var tried := AttemptLinkOAuth(identity, tokens, uid, aid, attempt);
        if tried.Some? {
          return tried.value;
        }
      }
      return Failed(UniqueViolation);
    }

    /** A deliberate link: no address is matched, and an identity somebody else holds is refused. */
    method LinkToUser(userId: nat, identity: OAuthIdentity, tokens: Option<string>, aid: nat) returns (r: LinkResult)
      requires Consistent(tables) && aid !in tables.accounts
      modifies this
      ensures userId !in old(tables).users ==> r == UserNotFound && tables == old(tables)
      ensures userId in old(tables).users ==>
                match FindAccount(old(tables), identity.issuer, identity.accountId)
                case Some(held) =>
                  if held.userId != userId then r == AccountAlreadyLinked && tables == old(tables)
                  else && tables == RefreshedTables(old(tables), held, tokens)
                       && r == Linked(old(tables).users[userId], RefreshedAccount(old(tables), held, tokens), false,
                                      false)
                case None =>
                  var owner, account := old(tables).users[userId], NewAccount(aid, identity, tokens, userId);
                  if !env.beforeAccountLink(owner, identity) then r == PolicyRefused && tables == old(tables)
                  else && tables == old(tables).(accounts := old(tables).accounts[aid := account])
                       && r == Linked(owner, account, false, true)
      ensures Consistent(tables)
    {
      if userId !in tables.users {
        return UserNotFound;
      }
      var owner := tables.users[userId];
      if id :| id in tables.accounts && Names(tables.accounts[id], identity.issuer, identity.accountId) {
        var held := tables.accounts[id];
        assert Names(held, identity.issuer, identity.accountId);
        if held.userId != userId {
          return AccountAlreadyLinked;
        }
        RefreshConsistent(tables, held, tokens);
        var account := RefreshedAccount(tables, held, tokens);
        tables := RefreshedTables(tables, held, tokens);
        return Linked(owner, account, false, false);
      }
      assert !IdentityTaken(tables, identity.issuer, identity.accountId);
      if !env.beforeAccountLink(owner, identity) {
        return PolicyRefused;
      }
      var account := NewAccount(aid, identity, tokens, userId);
      InsertAccountConsistent(tables, account);
      tables := tables.(accounts := tables.accounts[aid := account]);
      return Linked(owner, account, false, true);
    }

    /** `factors` is how many authenticators that sign in on their own the user holds. */
    method Unlink(accountId: nat, userId: nat, factors: nat) returns (r: UnlinkResult)
      requires Consistent(tables)
      modifies this
      ensures r.NoSuchAccount? <==>
                !(accountId in old(tables).accounts && old(tables).accounts[accountId].userId == userId)
      ensures r.CannotUnlinkLastAccount? <==>
                && accountId in old(tables).accounts && old(tables).accounts[accountId].userId == userId && factors == 0
                && forall a | a in old(tables).accounts && old(tables).accounts[a].userId == userId && a != accountId ::
                     old(tables).accounts[a].issuer == "local:credential" && old(tables).accounts[a].passwordHash.None?
      ensures r.Unlinked? ==> r.account == old(tables).accounts[accountId]
      ensures tables.users == old(tables).users
      ensures tables.accounts == if r.Unlinked? then old(tables).accounts - {accountId} else old(tables).accounts
      ensures r.Unlinked? ==>
                factors > 0 || exists a :: a in tables.accounts && tables.accounts[a].userId == userId
                                           && (tables.accounts[a].issuer != "local:credential"
                                               || tables.accounts[a].passwordHash.Some?)
    {
      var held := AccountsOf(tables, userId);
      if accountId !in held {
        return NoSuchAccount;
      }
      var target := tables.accounts[accountId];
      var remaining := set a | a in held && a != accountId && CanSignIn(tables.accounts[a]);
      if |remaining| + factors == 0 {
        assert forall a :: a in held && a != accountId && CanSignIn(tables.accounts[a]) ==> a in remaining;
        return CannotUnlinkLastAccount;
      }
      tables := tables.(accounts := tables.accounts - {accountId});
      if factors == 0 {
        assert exists a :: a in remaining && a in tables.accounts;
      }
      return Unlinked(target);
    }
  }
}
