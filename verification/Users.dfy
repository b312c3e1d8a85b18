/**
  Addresses, passwords and the tokens that move them: sign-up, verification,
  reset, change, the two-hop change of address and deletion. Each call is one
  step over users, sessions and tokens, in the order its source retires, issues,
  claims and writes.

  A token is named here by its secret; its identifier is its kind and subject.
 */
module Users {
  import opened Prelude

  datatype User = User(id: nat, email: string, emailVerified: bool, password: Option<string>)

  datatype Kind = EmailVerify | PasswordReset | ChangeConfirm | ChangeVerify | DeleteAccount

  datatype Subject = OfAddress(email: string) | OfUser(id: nat)

  /** How a token came to be: asked for by a user in some state, or by following a first hop. */
  datatype Origin = Requested(user: User) | FollowedHopOne(userId: nat)

  datatype Token = Token(
    kind: Kind, subject: Subject, newEmail: string, expiresAt: int, mailedTo: string, origin: Origin)

  /** What a deployment's `beforeUserCreate` answers to a candidate, if it installs one. */
  datatype Policy = Stands | Refuses | Rewrites(email: string, emailVerified: bool)

  /** `normalizeEmail`, the five lifetimes, the password lengths allowed, and two switches. */
  datatype Config = Config(
    normalize: string -> string, ttl: Kind -> int, minPasswordLength: int, maxPasswordLength: int,
    requireEmailVerification: bool, confirmByEmail: bool)

  ghost predicate Idempotent(c: Config) { forall e: string :: c.normalize(c.normalize(e)) == c.normalize(e) }

  const USER_SUBJECT_KINDS := [PasswordReset, ChangeConfirm, ChangeVerify, DeleteAccount]

  /**
    What happened, for the statements about runs: the rows there ever were, who was created how,
    and what was claimed where.
   */
  datatype History = History(
    minted: set<string>, births: map<nat, User>, rows: set<User>, proven: set<(nat, string)>,
    hopOnes: set<(nat, string)>)

  datatype State = State(
    now: int, users: map<nat, User>, sessions: map<nat, nat>, tokens: map<string, Token>, past: History)

  // ---------------------------------------------------------------------------
  // Tables
  // ---------------------------------------------------------------------------

  predicate Holds(s: State, email: string, u: nat) { u in s.users && s.users[u].email == email }

  predicate Taken(s: State, email: string) { exists u :: u in s.users && Holds(s, email, u) }

  /** The user an address belongs to; the unique index makes it the only one. */
  ghost function FindByEmail(s: State, email: string): (r: Option<User>)
    ensures r.Some? ==> exists u :: Holds(s, email, u) && s.users[u] == r.value
    ensures r.None? ==> !Taken(s, email)
  {
    if Taken(s, email) then
      var u :| Holds(s, email, u);
      Some(s.users[u])
    else None
  }

  function Retired(tokens: map<string, Token>, kind: Kind, subject: Subject): map<string, Token> {
    map k | k in tokens && !(tokens[k].kind == kind && tokens[k].subject == subject) :: tokens[k]
  }

  function RetiredKinds(tokens: map<string, Token>, kinds: seq<Kind>, id: nat): map<string, Token>
    decreases |kinds|
  {
    if kinds == [] then tokens else RetiredKinds(Retired(tokens, kinds[0], OfUser(id)), kinds[1..], id)
  }

  function RetiredForUser(tokens: map<string, Token>, id: nat): map<string, Token> {
    RetiredKinds(tokens, USER_SUBJECT_KINDS, id)
  }

  lemma {:induction false} RetiredKindsExactly(tokens: map<string, Token>, kinds: seq<Kind>, id: nat)
    ensures RetiredKinds(tokens, kinds, id).Keys <= tokens.Keys
    ensures forall k :: k in RetiredKinds(tokens, kinds, id) <==>
              k in tokens && !(tokens[k].kind in kinds && tokens[k].subject == OfUser(id))
    ensures forall k :: k in RetiredKinds(tokens, kinds, id) ==> RetiredKinds(tokens, kinds, id)[k] == tokens[k]
    decreases |kinds|
  {
    if kinds != [] {
      RetiredKindsExactly(Retired(tokens, kinds[0], OfUser(id)), kinds[1..], id);
      assert kinds == [kinds[0]] + kinds[1..];
    }
  }

  predicate Claimable(s: State, secret: string, kind: Kind) {
    secret in s.tokens && s.tokens[secret].kind == kind && s.now < s.tokens[secret].expiresAt
  }

  function Minted(c: Config, s: State, secret: string, kind: Kind, subject: Subject, newEmail: string, mailedTo: string,
                  origin: Origin): State {
    s.(tokens := s.tokens[secret := Token(kind, subject, newEmail, s.now + c.ttl(kind), mailedTo, origin)],
       past := s.past.(minted := s.past.minted + {secret}))
  }

  /** A hop, of either kind: the user's outstanding one goes before the new one exists. */
  function Hop(c: Config, s: State, secret: string, kind: Kind, user: User, newEmail: string, mailedTo: string,
               origin: Origin): State {
    var retired := s.(tokens := Retired(s.tokens, kind, OfUser(user.id)));
    Minted(c, retired, secret, kind, OfUser(user.id), newEmail, mailedTo, origin)
  }

  function Spent(s: State, secret: string): State { s.(tokens := s.tokens - {secret}) }

  function Proved(s: State, id: nat, email: string): State {
    s.(past := s.past.(proven := s.past.proven + {(id, email)}))
  }

  /** The state after a first hop is followed. */
  function FollowedHop(s: State, token: string, id: nat, email: string): State {
    Spent(s, token).(past := s.past.(hopOnes := s.past.hopOnes + {(id, email)}))
  }

  // ---------------------------------------------------------------------------
  // The calls
  // ---------------------------------------------------------------------------

  /**
    A call's `user` is the row its caller read, which may be out of date by now;
    `refused` is what the policy hook of that call answered, and `id` or `secret`
    what it drew.
   */
  datatype Step =
    | Tick(elapsed: nat)
    | SignUp(id: nat, email: string, password: string, before: Policy, afterRefuses: bool, secret: string)
    | Provision(id: nat, email: string, verified: bool, before: Policy, afterRefuses: bool)
    | OpenSession(session: nat, id: nat)
    | SendVerificationEmail(email: string, secret: string)
    | VerifyEmail(token: string)
    | RequestReset(email: string, secret: string)
    | ResetPassword(token: string, password: string)
    | ChangePassword(id: nat, password: string, revokeOthers: bool, current: Option<nat>)
    | SetPassword(id: nat, password: string)
    | RequestEmailChange(user: User, newEmail: string, refused: bool, secret: string)
    | ConfirmEmailChange(token: string, secret: string)
    | VerifyEmailChange(token: string)
    | RequestDeletion(user: User, refused: bool, secret: string)
    | ConfirmDeletion(token: string, id: nat, refused: bool)
    | Delete(user: User)

  predicate FreshSecret(s: State, secret: string) { secret !in s.past.minted }

  /** `checkPolicy`: it is asked before anything is claimed or read. */
  predicate Allowed(c: Config, password: string) { c.minPasswordLength <= |password| <= c.maxPasswordLength }

  /** The row a candidate becomes: a rewritten address is normalised again. */
  function Row(c: Config, id: nat, email: string, verified: bool, password: Option<string>, before: Policy): User {
    if before.Rewrites? then User(id, c.normalize(before.email), before.emailVerified, password)
    else User(id, c.normalize(email), verified, password)
  }

  /** The state after a row is written. */
  function Written(s: State, user: User): State {
    s.(users := s.users[user.id := user], past := s.past.(rows := s.past.rows + {user}))
  }

  function Created(s: State, user: User): State {
    Written(s, user).(past := Written(s, user).past.(births := s.past.births[user.id := user]))
  }

  /** The creation goes through: no hook refuses, and the address and the id are free. */
  predicate Creates(s: State, user: User, before: Policy, afterRefuses: bool) {
    !before.Refuses? && !afterRefuses && !Taken(s, user.email) && user.id !in s.past.births
  }

  function SessionsWithout(sessions: map<nat, nat>, id: nat, kept: Option<nat>): map<nat, nat> {
    map x | x in sessions && (sessions[x] != id || kept == Some(x)) :: sessions[x]
  }

  /** Links by the id go, and links by the address the caller knew. */
  function Deleted(c: Config, s: State, user: User): State {
    s.(users := s.users - {user.id}, sessions := SessionsWithout(s.sessions, user.id, None),
       tokens := Retired(RetiredForUser(s.tokens, user.id), EmailVerify, OfAddress(c.normalize(user.email))))
  }

  /** The state after a second hop is followed through. */
  function Moved(c: Config, s: State, token: string, id: nat, email: string): State
    requires token in s.tokens && id in s.users
  {
    var user := s.users[id];
    var moved := Written(s, user.(email := email, emailVerified := true));
    var left := Retired(RetiredForUser(s.tokens - {token}, id), EmailVerify, OfAddress(c.normalize(user.email)));
    Proved(moved.(tokens := left), id, s.tokens[token].mailedTo)
  }

  ghost function Apply(c: Config, s: State, step: Step): State {
    match step
    case Tick(elapsed) => s.(now := s.now + elapsed)
    case SignUp(id, email, password, before, afterRefuses, secret) =>
      var user := Row(c, id, email, false, Some(password), before);
      if !Allowed(c, password) || Taken(s, c.normalize(email)) || !FreshSecret(s, secret) then s
      else if !Creates(s, user, before, afterRefuses) then s
      else if !c.requireEmailVerification then Created(s, user)
      else
        Minted(c, Created(s, user), secret, EmailVerify, OfAddress(c.normalize(user.email)), "", user.email,
               Requested(user))
    case Provision(id, email, verified, before, afterRefuses) =>
      var user := Row(c, id, email, verified, None, before);
      if Creates(s, user, before, afterRefuses) then Created(s, user) else s
    case OpenSession(session, id) =>
      if session in s.sessions || id !in s.users then s else s.(sessions := s.sessions[session := id])
    case SendVerificationEmail(email, secret) =>
      (match FindByEmail(s, c.normalize(email))
       case None => s
       case Some(user) =>
         if user.emailVerified || !FreshSecret(s, secret) then s
         else Minted(c, s, secret, EmailVerify, OfAddress(c.normalize(user.email)), "", user.email, Requested(user)))
    case VerifyEmail(token) =>
      if !Claimable(s, token, EmailVerify) || !s.tokens[token].subject.OfAddress? then s
      else
        (match FindByEmail(s, c.normalize(s.tokens[token].subject.email))
         case None => Spent(s, token)
         case Some(user) =>
           Proved(Written(Spent(s, token), user.(emailVerified := true)), user.id, s.tokens[token].mailedTo))
    case RequestReset(email, secret) =>
      (match FindByEmail(s, c.normalize(email))
       case None => s
       case Some(user) =>
         if !FreshSecret(s, secret) then s
         else Minted(c, s, secret, PasswordReset, OfUser(user.id), "", user.email, Requested(user)))
    case ResetPassword(token, password) =>
      if !Allowed(c, password) || !Claimable(s, token, PasswordReset) || !s.tokens[token].subject.OfUser? then s
      else
        var id := s.tokens[token].subject.id;
        if id !in s.users then Spent(s, token)
        else Written(s, s.users[id].(password := Some(password))).(
               tokens := RetiredForUser(s.tokens - {token}, id), sessions := SessionsWithout(s.sessions, id, None))
    case ChangePassword(id, password, revokeOthers, current) =>
      if !Allowed(c, password) || id !in s.users || s.users[id].password.None? then s
      else Written(s, s.users[id].(password := Some(password))).(
             tokens := RetiredForUser(s.tokens, id),
             sessions := if revokeOthers then SessionsWithout(s.sessions, id, current) else s.sessions)
    case SetPassword(id, password) =>
      if !Allowed(c, password) || id !in s.users || s.users[id].password.Some? then s
      else Written(s, s.users[id].(password := Some(password)))
    case RequestEmailChange(user, newEmail, refused, secret) =>
      var email := c.normalize(newEmail);
      if user !in s.past.rows || refused || email == c.normalize(user.email) || !FreshSecret(s, secret) then s
      else if user.emailVerified then Hop(c, s, secret, ChangeConfirm, user, email, user.email, Requested(user))
      else if Taken(s, email) then s
      else Hop(c, s, secret, ChangeVerify, user, email, email, Requested(user))
    case ConfirmEmailChange(token, secret) =>
      if !Claimable(s, token, ChangeConfirm) || !s.tokens[token].subject.OfUser? then s
      else
        var id, email := s.tokens[token].subject.id, c.normalize(s.tokens[token].newEmail);
        var claimed := FollowedHop(s, token, id, email);
        if id !in s.users || Taken(s, email) || !FreshSecret(s, secret) then claimed
        else Hop(c, claimed, secret, ChangeVerify, s.users[id], email, email, FollowedHopOne(id))
    case VerifyEmailChange(token) =>
      if !Claimable(s, token, ChangeVerify) || !s.tokens[token].subject.OfUser? then s
      else
        var id, email := s.tokens[token].subject.id, c.normalize(s.tokens[token].newEmail);
        if id !in s.users || (Taken(s, email) && s.users[id].email != email) then Spent(s, token)
        else Moved(c, s, token, id, email)
    case RequestDeletion(user, refused, secret) =>
      if user !in s.past.rows || refused then s
      else if !c.confirmByEmail then Deleted(c, s, user)
      else if !FreshSecret(s, secret) then s
      else Hop(c, s, secret, DeleteAccount, user, "", user.email, Requested(user))
    case ConfirmDeletion(token, id, refused) =>
      if !Claimable(s, token, DeleteAccount) then s
      else if s.tokens[token].subject != OfUser(id) || id !in s.users || refused then Spent(s, token)
      else Deleted(c, Spent(s, token), s.users[id])
    case Delete(user) => if user !in s.past.rows then s else Deleted(c, s, user)
  }

  ghost function Run(c: Config, s: State, steps: seq<Step>): State
    decreases |steps|
  {
    if steps == [] then s else Run(c, Apply(c, s, steps[0]), steps[1..])
  }

  function Initial(now: int): State { State(now, map[], map[], map[], History({}, map[], {}, {}, {})) }

  // ---------------------------------------------------------------------------
  // The invariant
  // ---------------------------------------------------------------------------

  /** An unverified user never moved: every row it had bore the address it bears. */
  predicate UserGood(c: Config, s: State, u: nat)
    requires u in s.users
  {
    var user := s.users[u];
    && user.id == u && u in s.past.births && user in s.past.rows && user.email == c.normalize(user.email)
    && (user.emailVerified ==> (u, user.email) in s.past.proven
                               || (s.past.births[u].emailVerified && s.past.births[u].email == user.email))
    && (!user.emailVerified ==> NeverMoved(s, u, user.email))
  }

  predicate NeverMoved(s: State, u: nat, email: string) {
    forall r :: r in s.past.rows && r.id == u ==> r.email == email
  }

  ghost predicate UsersGood(c: Config, s: State) {
    && (forall u :: u in s.users ==> UserGood(c, s, u))
    && (forall r :: r in s.past.rows ==> r.id in s.past.births)
    && (forall u, v :: u in s.users && v in s.users && s.users[u].email == s.users[v].email ==> u == v)
  }

  /** What a token in the table still says truly, whatever has become of the user it was asked for. */
  predicate TokenGood(c: Config, s: State, t: Token) {
    && (t.kind.EmailVerify? <==> t.subject.OfAddress?)
    && match t.kind
       case EmailVerify =>
         && t.origin.Requested? && t.mailedTo == t.subject.email == c.normalize(t.mailedTo)
         && Holds(s, t.mailedTo, t.origin.user.id) && NeverMoved(s, t.origin.user.id, t.mailedTo)
       case ChangeVerify =>
         && t.mailedTo == t.newEmail == c.normalize(t.newEmail)
         && (if t.origin.Requested? then
               t.origin.user.id == t.subject.id && t.origin.user in s.past.rows && !t.origin.user.emailVerified
             else t.origin.userId == t.subject.id && (t.subject.id, t.newEmail) in s.past.hopOnes)
       case ChangeConfirm =>
         && t.newEmail == c.normalize(t.newEmail) && t.origin.Requested? && t.origin.user.id == t.subject.id
         && t.origin.user in s.past.rows && t.origin.user.emailVerified && t.mailedTo == t.origin.user.email
       case _ => true
  }

  predicate OneAtATime(kind: Kind) { kind == ChangeConfirm || kind == ChangeVerify || kind == DeleteAccount }

  ghost predicate TokensGood(c: Config, s: State) {
    && s.tokens.Keys <= s.past.minted
    && (forall k :: k in s.tokens ==> TokenGood(c, s, s.tokens[k]))
    && (forall j, k :: j in s.tokens && k in s.tokens && SameSlot(s.tokens[j], s.tokens[k]) ==> j == k)
  }

  predicate SameSlot(t: Token, u: Token) { OneAtATime(t.kind) && t.kind == u.kind && t.subject == u.subject }

  ghost predicate Inv(c: Config, s: State) { UsersGood(c, s) && TokensGood(c, s) }

  // ---------------------------------------------------------------------------
  // Every call keeps it
  // ---------------------------------------------------------------------------

  predicate FewerTokens(s: State, t: State) {
    forall k :: k in t.tokens ==> k in s.tokens && t.tokens[k] == s.tokens[k]
  }

  predicate PastGrows(s: State, t: State) {
    && s.past.minted <= t.past.minted && s.past.proven <= t.past.proven && s.past.hopOnes <= t.past.hopOnes
    && s.past.rows <= t.past.rows
    && forall u :: u in s.past.births ==> u in t.past.births && t.past.births[u] == s.past.births[u]
  }

  /** The rows written since bear the address their user has. */
  predicate NobodyMoves(s: State, t: State) {
    forall r :: r in t.past.rows && r !in s.past.rows && r.id in s.users ==> r.email == s.users[r.id].email
  }

  /** Removing tokens, with users as they were or more of them, hurts no token that stays. */
  lemma TokensStay(c: Config, s: State, t: State)
    requires TokensGood(c, s) && FewerTokens(s, t) && PastGrows(s, t) && NobodyMoves(s, t)
    requires forall u :: u in s.users ==> u in t.users && t.users[u].email == s.users[u].email
    ensures TokensGood(c, t)
  {
    forall k | k in t.tokens ensures TokenGood(c, t, t.tokens[k]) {
      assert TokenGood(c, s, s.tokens[k]);
    }
  }

  lemma MintKeeps(c: Config, s: State, secret: string, kind: Kind, subject: Subject, newEmail: string, mailedTo: string,
                  origin: Origin)
    requires Inv(c, s) && FreshSecret(s, secret)
    requires TokenGood(c, s, Token(kind, subject, newEmail, s.now + c.ttl(kind), mailedTo, origin))
    requires OneAtATime(kind) ==> forall k :: k in s.tokens ==>
               !(s.tokens[k].kind == kind && s.tokens[k].subject == subject)
    ensures Inv(c, Minted(c, s, secret, kind, subject, newEmail, mailedTo, origin))
  {
    var t := Minted(c, s, secret, kind, subject, newEmail, mailedTo, origin);
    forall k | k in t.tokens ensures TokenGood(c, t, t.tokens[k]) {
      if k != secret {
        assert TokenGood(c, s, s.tokens[k]);
      }
    }
    assert forall u :: u in s.users ==> UserGood(c, s, u);
  }

  lemma HopKeeps(c: Config, s: State, secret: string, kind: Kind, user: User, newEmail: string, mailedTo: string,
                 origin: Origin)
    requires Inv(c, s) && FreshSecret(s, secret)
    requires TokenGood(c, s, Token(kind, OfUser(user.id), newEmail, s.now + c.ttl(kind), mailedTo, origin))
    ensures Inv(c, Hop(c, s, secret, kind, user, newEmail, mailedTo, origin))
  {
    var retired := s.(tokens := Retired(s.tokens, kind, OfUser(user.id)));
    TokensStay(c, s, retired);
    assert forall u :: u in s.users ==> UserGood(c, s, u) && UserGood(c, retired, u);
    MintKeeps(c, retired, secret, kind, OfUser(user.id), newEmail, mailedTo, origin);
  }

  lemma CreateKeeps(c: Config, s: State, user: User)
    requires Inv(c, s) && user.id !in s.past.births && !Taken(s, user.email) && user.email == c.normalize(user.email)
    ensures Inv(c, Created(s, user))
  {
    hide UserGood, TokenGood;
    assert user.id !in s.users by {
      if user.id in s.users {
        BornBefore(c, s, user.id);
      }
    }
    TokensStay(c, s, Created(s, user));
    hide TokensGood;
    forall u | u in s.users ensures UserGood(c, Created(s, user), u) && s.users[u].email != user.email {
      assert Holds(s, s.users[u].email, u);
      OtherUserGood(c, s, user, u);
    }
    NewUserGood(c, s, user);
  }

  lemma BornBefore(c: Config, s: State, u: nat)
    requires UsersGood(c, s) && u in s.users
    ensures u in s.past.births
  {
    assert UserGood(c, s, u);
  }

  lemma OtherUserGood(c: Config, s: State, user: User, u: nat)
    requires u in s.users && u != user.id && UserGood(c, s, u)
    ensures UserGood(c, Created(s, user), u)
  {}

  lemma NewUserGood(c: Config, s: State, user: User)
    requires UsersGood(c, s) && user.id !in s.past.births && user.email == c.normalize(user.email)
    ensures UserGood(c, Created(s, user), user.id)
  {}

  /** Writing a user that keeps the address, password or not, verified if proven. */
  lemma WriteKeeps(c: Config, s: State, t: State, id: nat)
    requires Inv(c, s) && id in s.users && FewerTokens(s, t) && PastGrows(s, t) && t.past.births == s.past.births
    requires id in t.users && t.past.rows == s.past.rows + {t.users[id]}
    requires id in t.users && t.users == s.users[id := t.users[id]] && t.users[id].id == id
             && t.users[id].email == s.users[id].email
    requires s.users[id].emailVerified ==> t.users[id].emailVerified
    requires t.users[id].emailVerified ==> s.users[id].emailVerified || (id, s.users[id].email) in t.past.proven
    ensures Inv(c, t)
  {
    TokensStay(c, s, t);
    forall u | u in t.users ensures UserGood(c, t, u) {
      assert UserGood(c, s, u);
    }
  }

  /**
    The row deleted by may be out of date. A link that verifies an address is still
    gone with its user: only somebody unverified is mailed one, and they never moved.
   */
  lemma DeleteKeeps(c: Config, s: State, user: User)
    requires Inv(c, s) && user in s.past.rows
    ensures Inv(c, Deleted(c, s, user))
  {
    hide RetiredForUser, UserGood, TokenGood;
    var t := Deleted(c, s, user);
    RetiredForUserExactly(s.tokens, user.id);
    forall k | k in t.tokens ensures k in s.tokens && t.tokens[k] == s.tokens[k] && TokenGood(c, t, t.tokens[k]) {
      TokenOutlives(c, s, s.tokens[k], user);
    }
    forall u | u in t.users ensures UserGood(c, t, u) {
      UserOutlives(c, s, user, u);
    }
  }

  lemma TokenOutlives(c: Config, s: State, token: Token, user: User)
    requires TokenGood(c, s, token) && user in s.past.rows
    requires !(token.kind.EmailVerify? && token.subject == OfAddress(c.normalize(user.email)))
    ensures TokenGood(c, Deleted(c, s, user), token)
  {
    hide RetiredForUser, SessionsWithout;
  }

  lemma UserOutlives(c: Config, s: State, user: User, u: nat)
    requires u in s.users && u != user.id && UserGood(c, s, u)
    ensures UserGood(c, Deleted(c, s, user), u)
  {}

  lemma RetiredForUserExactly(tokens: map<string, Token>, id: nat)
    ensures RetiredForUser(tokens, id).Keys <= tokens.Keys
    ensures forall k :: k in RetiredForUser(tokens, id) <==>
              k in tokens && (tokens[k].subject != OfUser(id) || tokens[k].kind == EmailVerify)
    ensures forall k :: k in RetiredForUser(tokens, id) ==> RetiredForUser(tokens, id)[k] == tokens[k]
  {
    RetiredKindsExactly(tokens, USER_SUBJECT_KINDS, id);
  }

  lemma MovedTokens(c: Config, s: State, token: string, id: nat, email: string)
    requires Inv(c, s) && token in s.tokens && id in s.users
    ensures TokensGood(c, Moved(c, s, token, id, email))
  {
    hide RetiredForUser;
    var t := Moved(c, s, token, id, email);
    RetiredForUserExactly(s.tokens - {token}, id);
    assert s.users[id].email == c.normalize(s.users[id].email) by {
      assert UserGood(c, s, id);
    }
    hide UserGood, TokenGood;
    forall k | k in t.tokens ensures k in s.tokens && t.tokens[k] == s.tokens[k] && TokenGood(c, t, t.tokens[k]) {
      TokenUnmoved(c, s, t, s.tokens[k], id);
    }
  }

  /** A token that is neither the user's nor for the address the user had is untouched by the user moving. */
  lemma TokenUnmoved(c: Config, s: State, t: State, token: Token, id: nat)
    requires TokenGood(c, s, token) && id in s.users && id in t.users && t.users == s.users[id := t.users[id]]
    requires PastGrows(s, t) && t.past.rows == s.past.rows + {t.users[id]} && t.users[id].id == id
    requires token.subject != OfUser(id) || token.kind.EmailVerify?
    requires !(token.kind.EmailVerify? && token.subject == OfAddress(s.users[id].email))
    ensures TokenGood(c, t, token)
  {
  }

  lemma MovedUsers(c: Config, s: State, token: string, id: nat, email: string)
    requires Inv(c, s) && token in s.tokens && id in s.users && s.tokens[token].mailedTo == email == c.normalize(email)
    requires forall u :: Holds(s, email, u) ==> u == id
    ensures UsersGood(c, Moved(c, s, token, id, email))
  {
    hide RetiredForUser, Retired, TokensGood;
    var t := Moved(c, s, token, id, email);
    forall u | u in t.users ensures UserGood(c, t, u) {
      assert UserGood(c, s, u);
    }
    assert forall u :: u in s.users && u != id ==> s.users[u].email != email by {
      assert forall u :: u in s.users && s.users[u].email == email ==> Holds(s, email, u);
    }
  }

  lemma MoveKeeps(c: Config, s: State, token: string)
    requires Idempotent(c) && Inv(c, s) && Claimable(s, token, ChangeVerify)
    ensures Inv(c, Apply(c, s, VerifyEmailChange(token)))
  {
    var claimed := s.tokens[token];
    assert TokenGood(c, s, claimed);
    var id, email := claimed.subject.id, c.normalize(claimed.newEmail);
    if id !in s.users || (Taken(s, email) && s.users[id].email != email) {
      SpentKeeps(c, s, token);
    } else {
      forall u | Holds(s, email, u) ensures u == id {
        assert Taken(s, email);
      }
      MovedTokens(c, s, token, id, email);
      MovedUsers(c, s, token, id, email);
      hide UsersGood, TokensGood;
      assert Apply(c, s, VerifyEmailChange(token)) == Moved(c, s, token, id, email);
    }
  }

  lemma SpentKeeps(c: Config, s: State, token: string)
    requires Inv(c, s)
    ensures Inv(c, Spent(s, token))
  {
    TokensStay(c, s, Spent(s, token));
    assert forall u :: u in s.users ==> UserGood(c, s, u) && UserGood(c, Spent(s, token), u);
  }

  lemma FoundIs(c: Config, s: State, email: string)
    requires UsersGood(c, s) && FindByEmail(s, email).Some?
    ensures var user := FindByEmail(s, email).value;
            user.id in s.users && s.users[user.id] == user && user.email == email
  {
    var u :| Holds(s, email, u) && s.users[u] == FindByEmail(s, email).value;
    assert UserGood(c, s, u);
  }

  lemma KeepsOnMail(c: Config, s: State, step: Step)
    requires Idempotent(c) && Inv(c, s)
             && (step.SignUp? || step.Provision? || step.SendVerificationEmail? || step.RequestReset?)
    ensures Inv(c, Apply(c, s, step))
  {
    hide Inv, UsersGood, TokensGood, Created, Minted;
    match step
    case SignUp(id, email, password, before, afterRefuses, secret) =>
      var user := Row(c, id, email, false, Some(password), before);
      if Creates(s, user, before, afterRefuses) && FreshSecret(s, secret) {
        CreateKeeps(c, s, user);
        if c.requireEmailVerification {
          CreatedHas(c, s, user);
          MintKeeps(c, Created(s, user), secret, EmailVerify, OfAddress(user.email), "", user.email, Requested(user));
        }
      }
    case Provision(id, email, verified, before, afterRefuses) =>
      var user := Row(c, id, email, verified, None, before);
      if Creates(s, user, before, afterRefuses) {
        CreateKeeps(c, s, user);
      }
    case SendVerificationEmail(email, secret) =>
      if FindByEmail(s, c.normalize(email)).Some? && FreshSecret(s, secret) {
        var user := FindByEmail(s, c.normalize(email)).value;
        assert UsersGood(c, s) by { InvUsers(c, s); }
        FoundIs(c, s, c.normalize(email));
        if !user.emailVerified {
          NeverMovedIf(c, s, user.id);
          MintKeeps(c, s, secret, EmailVerify, OfAddress(user.email), "", user.email, Requested(user));
        }
      }
    case RequestReset(email, secret) =>
      if FindByEmail(s, c.normalize(email)).Some? && FreshSecret(s, secret) {
        var user := FindByEmail(s, c.normalize(email)).value;
        assert UsersGood(c, s) by { InvUsers(c, s); }
        FoundIs(c, s, c.normalize(email));
        MintKeeps(c, s, secret, PasswordReset, OfUser(user.id), "", user.email, Requested(user));
      }
  }

  lemma InvUsers(c: Config, s: State)
    requires Inv(c, s)
    ensures UsersGood(c, s)
  {
  }

  lemma NeverMovedIf(c: Config, s: State, u: nat)
    requires Inv(c, s) && u in s.users && !s.users[u].emailVerified
    ensures NeverMoved(s, u, s.users[u].email)
  {
    assert UserGood(c, s, u);
  }

  lemma CreatedHas(c: Config, s: State, user: User)
    requires Inv(c, s) && user.id !in s.past.births
    ensures var t := Created(s, user);
            Holds(t, user.email, user.id) && t.past.minted == s.past.minted && NeverMoved(t, user.id, user.email)
  {
  }

  lemma KeepsOnRequestChange(c: Config, s: State, user: User, newEmail: string, refused: bool, secret: string)
    requires Idempotent(c) && Inv(c, s)
    ensures Inv(c, Apply(c, s, RequestEmailChange(user, newEmail, refused, secret)))
  {
    hide Hop, Inv;
    if user in s.past.rows && FreshSecret(s, secret) {
      var email := c.normalize(newEmail);
      if user.emailVerified {
        HopKeeps(c, s, secret, ChangeConfirm, user, email, user.email, Requested(user));
      } else {
        HopKeeps(c, s, secret, ChangeVerify, user, email, email, Requested(user));
      }
    }
  }

  lemma KeepsOnConfirmChange(c: Config, s: State, token: string, secret: string)
    requires Idempotent(c) && Inv(c, s)
    ensures Inv(c, Apply(c, s, ConfirmEmailChange(token, secret)))
  {
    hide Hop;
    if Claimable(s, token, ChangeConfirm) && s.tokens[token].subject.OfUser? {
      var id, email := s.tokens[token].subject.id, c.normalize(s.tokens[token].newEmail);
      var claimed := FollowedHop(s, token, id, email);
      FollowedKeeps(c, s, token, id, email);
      hide Inv;
      if id in s.users && FreshSecret(s, secret) {
        KeepsId(c, s, id);
        HopKeeps(c, claimed, secret, ChangeVerify, s.users[id], email, email, FollowedHopOne(id));
      }
    }
  }

  lemma FollowedKeeps(c: Config, s: State, token: string, id: nat, email: string)
    requires Inv(c, s)
    ensures Inv(c, FollowedHop(s, token, id, email))
  {
    var claimed := FollowedHop(s, token, id, email);
    TokensStay(c, s, claimed);
    assert forall u :: u in s.users ==> UserGood(c, s, u) && UserGood(c, claimed, u);
  }

  lemma KeepsOnRequestDeletion(c: Config, s: State, user: User, refused: bool, secret: string)
    requires Idempotent(c) && Inv(c, s)
    ensures Inv(c, Apply(c, s, RequestDeletion(user, refused, secret)))
  {
    hide Hop, Deleted, Inv;
    if user in s.past.rows && !refused {
      if !c.confirmByEmail {
        DeleteKeeps(c, s, user);
      } else if FreshSecret(s, secret) {
        HopKeeps(c, s, secret, DeleteAccount, user, "", user.email, Requested(user));
      }
    }
  }

  lemma KeepsOnVerify(c: Config, s: State, token: string)
    requires Idempotent(c) && Inv(c, s)
    ensures Inv(c, Apply(c, s, VerifyEmail(token)))
  {
    hide RetiredForUser, TokenGood, UserGood;
    if Claimable(s, token, EmailVerify) && s.tokens[token].subject.OfAddress? {
      VerifiesItsUser(c, s, token);
      WriteKeeps(c, s, Apply(c, s, VerifyEmail(token)), s.tokens[token].origin.user.id);
    }
  }

  lemma KeepsOnPassword(c: Config, s: State, step: Step)
    requires Idempotent(c) && Inv(c, s) && (step.ResetPassword? || step.ChangePassword? || step.SetPassword?)
    ensures Inv(c, Apply(c, s, step))
  {
    hide RetiredForUser, TokenGood, UserGood, SessionsWithout;
    var t := Apply(c, s, step);
    match step
    case ResetPassword(token, password) =>
      if Claimable(s, token, PasswordReset) && s.tokens[token].subject.OfUser? {
        var id := s.tokens[token].subject.id;
        RetiredForUserExactly(s.tokens - {token}, id);
        if id in s.users {
          KeepsId(c, s, id);
          WriteKeeps(c, s, t, id);
        } else {
          SpentKeeps(c, s, token);
        }
      }
    case ChangePassword(id, password, _, _) =>
      if t != s {
        RetiredForUserExactly(s.tokens, id);
        KeepsId(c, s, id);
        WriteKeeps(c, s, t, id);
      }
    case SetPassword(id, password) =>
      if t != s {
        KeepsId(c, s, id);
        WriteKeeps(c, s, t, id);
      }
  }

  lemma KeepsId(c: Config, s: State, id: nat)
    requires Inv(c, s) && id in s.users
    ensures s.users[id].id == id && s.users[id] in s.past.rows
  {
    assert UserGood(c, s, id);
  }

  lemma TablesKeep(c: Config, s: State, t: State)
    requires Inv(c, s) && t.users == s.users && t.tokens == s.tokens && t.past == s.past
    ensures Inv(c, t)
  {
    TokensStay(c, s, t);
    assert forall u :: u in s.users ==> UserGood(c, s, u) && UserGood(c, t, u);
  }

  /** A verification link marks the very user it was mailed to, who still holds the address. */
  lemma VerifiesItsUser(c: Config, s: State, token: string)
    requires Inv(c, s) && Claimable(s, token, EmailVerify)
    ensures var t := s.tokens[token];
            && t.subject == OfAddress(t.mailedTo) && t.mailedTo == c.normalize(t.mailedTo) && t.origin.Requested?
            && FindByEmail(s, c.normalize(t.subject.email)) == Some(s.users[t.origin.user.id])
            && Holds(s, t.mailedTo, t.origin.user.id) && s.users[t.origin.user.id].id == t.origin.user.id
  {
    var t := s.tokens[token];
    assert TokenGood(c, s, t) && UserGood(c, s, t.origin.user.id);
    FoundIs(c, s, t.mailedTo);
  }

  lemma KeepsInv(c: Config, s: State, step: Step)
    requires Idempotent(c) && Inv(c, s)
    ensures Inv(c, Apply(c, s, step))
  {
    hide Inv, Hop, Minted, RetiredForUser, Proved;
    match step
    case Tick(_) => TablesKeep(c, s, Apply(c, s, step));
    case OpenSession(_, _) => TablesKeep(c, s, Apply(c, s, step));
    case VerifyEmail(token) => KeepsOnVerify(c, s, token);
    case ResetPassword(_, _) => KeepsOnPassword(c, s, step);
    case ChangePassword(_, _, _, _) => KeepsOnPassword(c, s, step);
    case SetPassword(_, _) => KeepsOnPassword(c, s, step);
    case RequestEmailChange(user, newEmail, refused, secret) =>
      KeepsOnRequestChange(c, s, user, newEmail, refused, secret);
    case ConfirmEmailChange(token, secret) => KeepsOnConfirmChange(c, s, token, secret);
    case RequestDeletion(user, refused, secret) => KeepsOnRequestDeletion(c, s, user, refused, secret);
    case VerifyEmailChange(token) =>
      if Claimable(s, token, ChangeVerify) {
        MoveKeeps(c, s, token);
      }
    case ConfirmDeletion(token, id, _) =>
      SpentKeeps(c, s, token);
      if id in s.users {
        KeepsId(c, s, id);
        DeleteKeeps(c, Spent(s, token), s.users[id]);
      }
    case Delete(user) =>
      if user in s.past.rows {
        DeleteKeeps(c, s, user);
      }
    case _ => KeepsOnMail(c, s, step);
  }

  lemma {:induction false} RunKeepsInv(c: Config, s: State, steps: seq<Step>)
    requires Idempotent(c) && Inv(c, s)
    ensures Inv(c, Run(c, s, steps))
    decreases |steps|
  {
    hide Apply, Inv;
    if steps != [] {
      KeepsInv(c, s, steps[0]);
      RunKeepsInv(c, Apply(c, s, steps[0]), steps[1..]);
    }
  }

  // ---------------------------------------------------------------------------
  // Over every run
  // ---------------------------------------------------------------------------

  /** A user has at most one outstanding link of each hop, and one deletion link. */
  lemma OneLinkPerHop(c: Config, now: int, steps: seq<Step>, j: string, k: string)
    requires Idempotent(c)
    requires var s := Run(c, Initial(now), steps); j in s.tokens && k in s.tokens && SameSlot(s.tokens[j], s.tokens[k])
    ensures j == k
  {
    RunKeepsInv(c, Initial(now), steps);
  }

  /**
    Every outstanding second hop came of a first hop followed for that address, or was asked for
    while the user was unverified.
   */
  lemma SecondHopOrigin(c: Config, now: int, steps: seq<Step>, k: string)
    requires Idempotent(c)
    requires var s := Run(c, Initial(now), steps); k in s.tokens && s.tokens[k].kind.ChangeVerify?
    ensures var s := Run(c, Initial(now), steps);
            var t := s.tokens[k];
            && t.subject.OfUser? && t.mailedTo == t.newEmail
            && ((t.origin.FollowedHopOne? && (t.subject.id, t.newEmail) in s.past.hopOnes)
                || (t.origin.Requested? && t.origin.user in s.past.rows
                    && t.origin.user.id == t.subject.id && !t.origin.user.emailVerified))
  {
    RunKeepsInv(c, Initial(now), steps);
    var s := Run(c, Initial(now), steps);
    assert TokenGood(c, s, s.tokens[k]);
  }

  /** A verified address is one where a mailed token was claimed, or the one its owner was created verified with. */
  lemma VerifiedWasProven(c: Config, now: int, steps: seq<Step>, u: nat)
    requires Idempotent(c)
    requires var s := Run(c, Initial(now), steps); u in s.users && s.users[u].emailVerified
    ensures var s := Run(c, Initial(now), steps);
            || (u, s.users[u].email) in s.past.proven
            || (u in s.past.births && s.past.births[u].emailVerified && s.past.births[u].email == s.users[u].email)
  {
    RunKeepsInv(c, Initial(now), steps);
    assert UserGood(c, Run(c, Initial(now), steps), u);
  }

  predicate ClaimsAt(s: State, step: Step, id: nat, address: string) {
    match step
    case VerifyEmail(token) => Claimable(s, token, EmailVerify) && s.tokens[token].mailedTo == address
    case VerifyEmailChange(token) =>
      Claimable(s, token, ChangeVerify) && s.tokens[token].mailedTo == address && s.tokens[token].subject == OfUser(id)
    case _ => false
  }

  /** A creation of a user verified from the start: by a caller who may say so, or by the policy hook. */
  predicate BornVerified(step: Step) {
    && (step.SignUp? || step.Provision?)
    && if step.before.Rewrites? then step.before.emailVerified else step.Provision? && step.verified
  }

  /**
    The history is honest: proof is recorded by claiming a live link mailed there, a hop by
    claiming a live first-hop link.
   */
  lemma HistoryIsHonest(c: Config, s: State, step: Step, id: nat, address: string)
    requires Idempotent(c) && Inv(c, s)
    ensures var past := Apply(c, s, step).past;
            && ((id, address) in past.proven && (id, address) !in s.past.proven ==> ClaimsAt(s, step, id, address))
            && ((id, address) in past.hopOnes && (id, address) !in s.past.hopOnes ==> FollowsAt(s, step, id, address))
            && (id in past.births && id !in s.past.births && past.births[id].emailVerified ==> BornVerified(step))
  {
    ProofIsHonest(c, s, step, id, address);
    HopIsHonest(c, s, step, id, address);
    BirthIsHonest(c, s, step, id);
  }

  predicate FollowsAt(s: State, step: Step, id: nat, address: string) {
    && step.ConfirmEmailChange? && Claimable(s, step.token, ChangeConfirm)
    && s.tokens[step.token].subject == OfUser(id) && s.tokens[step.token].newEmail == address
  }

  lemma ProofIsHonest(c: Config, s: State, step: Step, id: nat, address: string)
    ensures (id, address) in Apply(c, s, step).past.proven && (id, address) !in s.past.proven ==>
              ClaimsAt(s, step, id, address)
  {
    hide RetiredForUser, Retired, SessionsWithout, Taken, Row;
  }

  lemma HopIsHonest(c: Config, s: State, step: Step, id: nat, address: string)
    requires Inv(c, s)
    ensures (id, address) in Apply(c, s, step).past.hopOnes && (id, address) !in s.past.hopOnes ==>
              FollowsAt(s, step, id, address)
  {
    hide RetiredForUser, Retired, SessionsWithout, Taken, Row;
    if step.ConfirmEmailChange? && Claimable(s, step.token, ChangeConfirm) {
      assert TokenGood(c, s, s.tokens[step.token]);
    }
  }

  lemma BirthIsHonest(c: Config, s: State, step: Step, id: nat)
    ensures var past := Apply(c, s, step).past;
            id in past.births && id !in s.past.births && past.births[id].emailVerified ==> BornVerified(step)
  {
    hide RetiredForUser, Retired, SessionsWithout, Taken;
  }

  /**
    An address changes only by claiming a live second-hop link of that user, to the address it
    was mailed to, and ends up verified.
   */
  lemma AddressMovesByClaim(c: Config, s: State, step: Step, u: nat)
    requires Idempotent(c) && Inv(c, s)
    requires u in s.users && u in Apply(c, s, step).users && Apply(c, s, step).users[u].email != s.users[u].email
    ensures var user := Apply(c, s, step).users[u];
            && step.VerifyEmailChange? && ClaimsAt(s, step, u, user.email) && user.emailVerified
  {
    hide RetiredForUser, Retired, Hop, Minted, TokenGood;
    if step.VerifyEmailChange? && Claimable(s, step.token, ChangeVerify) {
      MailedWhereItMoves(c, s, s.tokens[step.token]);
    }
    if step.VerifyEmail? && Claimable(s, step.token, EmailVerify) {
      VerifiesItsUser(c, s, step.token);
    }
    assert UserGood(c, s, u);
    HopsLeaveUsers(c, s, step);
  }

  lemma MailedWhereItMoves(c: Config, s: State, t: Token)
    requires TokenGood(c, s, t) && t.kind.ChangeVerify?
    ensures t.subject.OfUser? && t.mailedTo == t.newEmail == c.normalize(t.newEmail)
  {
  }

  lemma HopsLeaveUsers(c: Config, s: State, step: Step)
    ensures step.RequestEmailChange? || step.ConfirmEmailChange? || step.SendVerificationEmail? || step.RequestReset?
            ==> Apply(c, s, step).users == s.users
    ensures step.RequestDeletion? ==>
              Apply(c, s, step).users == s.users || Apply(c, s, step).users == s.users - {step.user.id}
    ensures step.SignUp? ==> forall v :: v in s.users && v in s.past.births ==>
              v in Apply(c, s, step).users && Apply(c, s, step).users[v] == s.users[v]
  {
    hide RetiredForUser, Retired;
  }

  /** A second hop is only ever minted for an address nobody holds, so nothing is mailed to somebody else's mailbox. */
  lemma SecondHopsGoToFreeAddresses(c: Config, s: State, step: Step, k: string)
    requires Inv(c, s)
    requires k in Apply(c, s, step).tokens && k !in s.tokens && Apply(c, s, step).tokens[k].kind.ChangeVerify?
    ensures !Taken(s, Apply(c, s, step).tokens[k].newEmail)
  {
    hide RetiredForUser, Inv;
    NoneRevived(s, step);
  }

  lemma NoneRevived(s: State, step: Step)
    ensures forall id :: RetiredForUser(s.tokens, id).Keys <= s.tokens.Keys
    ensures step.VerifyEmailChange? || step.ResetPassword? || step.ConfirmDeletion? ==>
              forall id :: RetiredForUser(s.tokens - {step.token}, id).Keys <= s.tokens.Keys
  {
    hide RetiredForUser;
    forall id ensures RetiredForUser(s.tokens, id).Keys <= s.tokens.Keys {
      RetiredForUserExactly(s.tokens, id);
    }
    if step.VerifyEmailChange? || step.ResetPassword? || step.ConfirmDeletion? {
      forall id ensures RetiredForUser(s.tokens - {step.token}, id).Keys <= s.tokens.Keys {
        RetiredForUserExactly(s.tokens - {step.token}, id);
      }
    }
  }

  // ---------------------------------------------------------------------------
  // What a call changes, and nothing else
  // ---------------------------------------------------------------------------

  /** A call that gives a user this password: a reset by a live link of theirs, a change, or a first one. */
  predicate GivesPassword(s: State, step: Step, id: nat, password: string) {
    match step
    case ResetPassword(token, given) =>
      given == password && Claimable(s, token, PasswordReset) && s.tokens[token].subject == OfUser(id)
    case ChangePassword(u, given, _, _) => given == password && u == id && id in s.users && s.users[id].password.Some?
    case SetPassword(u, given) => given == password && u == id && id in s.users && s.users[id].password.None?
    case _ => false
  }

  /**
    What a step may change of the row of a user who survives it: the password alone, by a
    call that gives it; the verification alone, by a link mailed to the address they have;
    or the address, verified by the second hop that was mailed there.
   */
  lemma RowsChangeOnlyBy(c: Config, s: State, step: Step, u: nat)
    requires Idempotent(c) && Inv(c, s) && u in s.users && u in Apply(c, s, step).users
    ensures var was, now := s.users[u], Apply(c, s, step).users[u];
            || now == was
            || (now.password.Some? && now == was.(password := now.password) && Allowed(c, now.password.value)
                && GivesPassword(s, step, u, now.password.value))
            || (now == was.(emailVerified := true) && step.VerifyEmail? && ClaimsAt(s, step, u, was.email))
            || (now == was.(email := now.email, emailVerified := true)
                && step.VerifyEmailChange? && ClaimsAt(s, step, u, now.email))
  {
    match step
    case VerifyEmail(_) => RowOnVerify(c, s, step, u);
    case VerifyEmailChange(_) => RowOnMove(c, s, step, u);
    case ResetPassword(_, _) => RowOnPassword(c, s, step, u);
    case ChangePassword(_, _, _, _) => RowOnPassword(c, s, step, u);
    case SetPassword(_, _) => RowOnPassword(c, s, step, u);
    case _ =>
      BornBefore(c, s, u);
      RowsKept(c, s, step, u);
  }

  lemma RowsKept(c: Config, s: State, step: Step, u: nat)
    requires u in s.users && u in s.past.births && u in Apply(c, s, step).users
    requires !step.VerifyEmail? && !step.VerifyEmailChange?
    requires !step.ResetPassword? && !step.ChangePassword? && !step.SetPassword?
    ensures Apply(c, s, step).users[u] == s.users[u]
  {
    hide RetiredForUser, Retired, SessionsWithout, FindByEmail;
  }

  lemma RowOnVerify(c: Config, s: State, step: Step, u: nat)
    requires Inv(c, s) && step.VerifyEmail? && u in s.users && u in Apply(c, s, step).users
    ensures var was, now := s.users[u], Apply(c, s, step).users[u];
            now == was || (now == was.(emailVerified := true) && ClaimsAt(s, step, u, was.email))
  {
    hide FindByEmail, UserGood;
    if Claimable(s, step.token, EmailVerify) {
      VerifiesItsUser(c, s, step.token);
    }
  }

  lemma RowOnMove(c: Config, s: State, step: Step, u: nat)
    requires Inv(c, s) && step.VerifyEmailChange? && u in s.users && u in Apply(c, s, step).users
    ensures var was, now := s.users[u], Apply(c, s, step).users[u];
            now == was || (now == was.(email := now.email, emailVerified := true) && ClaimsAt(s, step, u, now.email))
  {
    hide RetiredForUser, Retired, UserGood;
    if Claimable(s, step.token, ChangeVerify) {
      MailedWhereItMoves(c, s, s.tokens[step.token]);
      if s.tokens[step.token].subject.id in s.users {
        KeepsId(c, s, s.tokens[step.token].subject.id);
      }
    }
  }

  lemma RowOnPassword(c: Config, s: State, step: Step, u: nat)
    requires Inv(c, s) && (step.ResetPassword? || step.ChangePassword? || step.SetPassword?)
    requires u in s.users && u in Apply(c, s, step).users
    ensures var was, now := s.users[u], Apply(c, s, step).users[u];
            now == was || (now.password.Some? && now == was.(password := now.password) && Allowed(c, now.password.value)
                           && GivesPassword(s, step, u, now.password.value))
  {
    hide RetiredForUser, SessionsWithout, UserGood;
    forall id | id in s.users ensures s.users[id].id == id {
      KeepsId(c, s, id);
    }
  }

  /** A link that has expired opens nothing: the call that presents it changes nothing. */
  lemma ExpiredOpensNothing(c: Config, s: State, k: string, secret: string, password: string, id: nat, refused: bool)
    requires k in s.tokens && s.tokens[k].expiresAt <= s.now
    ensures Apply(c, s, VerifyEmail(k)) == Apply(c, s, ResetPassword(k, password)) == s
    ensures Apply(c, s, ConfirmEmailChange(k, secret)) == Apply(c, s, VerifyEmailChange(k)) == s
    ensures Apply(c, s, ConfirmDeletion(k, id, refused)) == s
  {
  }

  /** A verification link that has not verifies somebody at the address it was mailed to, once. */
  lemma LiveVerifies(c: Config, s: State, k: string)
    requires Inv(c, s) && k in s.tokens && s.now < s.tokens[k].expiresAt && s.tokens[k].kind == EmailVerify
    ensures var email, after := s.tokens[k].mailedTo, Apply(c, s, VerifyEmail(k));
            && k !in after.tokens
            && exists u :: u in after.users && after.users[u].email == email && after.users[u].emailVerified
  {
    var u := s.tokens[k].origin.user.id;
    VerifiesItsUser(c, s, k);
    var after := Apply(c, s, VerifyEmail(k));
    assert u in after.users && after.users[u].email == s.tokens[k].mailedTo;
  }

  /**
    And a link that names a user does what it was mailed for, once, while they are there and the
    address it asks for is free.
   */
  lemma LiveOpens(c: Config, s: State, k: string, id: nat, secret: string, password: string)
    requires Idempotent(c) && Inv(c, s) && k in s.tokens && s.now < s.tokens[k].expiresAt
    requires s.tokens[k].subject == OfUser(id) && id in s.users && secret !in s.past.minted
    ensures s.tokens[k].kind == PasswordReset && c.minPasswordLength <= |password| <= c.maxPasswordLength ==>
              var after := Apply(c, s, ResetPassword(k, password));
              k !in after.tokens && id in after.users && after.users[id].password == Some(password)
    ensures var email := s.tokens[k].newEmail;
            s.tokens[k].kind == ChangeConfirm && (forall u :: u in s.users ==> s.users[u].email != email) ==>
              var after := Apply(c, s, ConfirmEmailChange(k, secret));
              && k !in after.tokens && secret in after.tokens
              && after.tokens[secret].kind == ChangeVerify && after.tokens[secret].mailedTo == email
    ensures var email := s.tokens[k].newEmail;
            s.tokens[k].kind == ChangeVerify && (forall u :: u in s.users && u != id ==> s.users[u].email != email) ==>
              var after := Apply(c, s, VerifyEmailChange(k));
              k !in after.tokens && id in after.users && after.users[id].email == email && after.users[id].emailVerified
    ensures s.tokens[k].kind == DeleteAccount ==>
              var after := Apply(c, s, ConfirmDeletion(k, id, false)); k !in after.tokens && id !in after.users
  {
    hide Apply, Inv, Idempotent;
    match s.tokens[k].kind
    case PasswordReset =>
      if Allowed(c, password) {
        LiveReset(c, s, k, id, password);
      }
    case ChangeConfirm => LiveFirstHop(c, s, k, id, secret);
    case ChangeVerify => LiveSecondHop(c, s, k, id);
    case DeleteAccount => LiveDeletion(c, s, k, id);
    case EmailVerify =>
  }

  predicate LiveFor(s: State, k: string, kind: Kind, id: nat) {
    Claimable(s, k, kind) && s.tokens[k].subject == OfUser(id) && id in s.users
  }

  lemma LiveReset(c: Config, s: State, k: string, id: nat, password: string)
    requires Inv(c, s) && LiveFor(s, k, PasswordReset, id) && Allowed(c, password)
    ensures var after := Apply(c, s, ResetPassword(k, password));
            k !in after.tokens && id in after.users && after.users[id].password == Some(password)
  {
    KeepsId(c, s, id);
    hide Inv, RetiredForUser;
    RetiredForUserExactly(s.tokens - {k}, id);
  }

  lemma LiveFirstHop(c: Config, s: State, k: string, id: nat, secret: string)
    requires Inv(c, s) && LiveFor(s, k, ChangeConfirm, id) && FreshSecret(s, secret)
    ensures var email := s.tokens[k].newEmail;
            (forall u :: u in s.users ==> s.users[u].email != email) ==>
              var after := Apply(c, s, ConfirmEmailChange(k, secret));
              && k !in after.tokens && secret in after.tokens
              && after.tokens[secret].kind == ChangeVerify && after.tokens[secret].mailedTo == email
  {
    SecretIsNew(c, s, secret);
    AddressAsked(c, s, s.tokens[k]);
    hide Inv;
  }

  lemma LiveSecondHop(c: Config, s: State, k: string, id: nat)
    requires Inv(c, s) && LiveFor(s, k, ChangeVerify, id)
    ensures var email := s.tokens[k].newEmail;
            (forall u :: u in s.users && u != id ==> s.users[u].email != email) ==>
              var after := Apply(c, s, VerifyEmailChange(k));
              k !in after.tokens && id in after.users && after.users[id].email == email && after.users[id].emailVerified
  {
    KeepsId(c, s, id);
    AddressAsked(c, s, s.tokens[k]);
    hide Inv, RetiredForUser;
    RetiredForUserExactly(s.tokens - {k}, id);
  }

  lemma LiveDeletion(c: Config, s: State, k: string, id: nat)
    requires Inv(c, s) && LiveFor(s, k, DeleteAccount, id)
    ensures var after := Apply(c, s, ConfirmDeletion(k, id, false)); k !in after.tokens && id !in after.users
  {
    KeepsId(c, s, id);
    hide Inv, RetiredForUser;
    RetiredForUserExactly(s.tokens - {k}, id);
  }

  lemma AddressAsked(c: Config, s: State, t: Token)
    requires TokenGood(c, s, t)
    ensures t.kind == ChangeVerify || t.kind == ChangeConfirm ==> c.normalize(t.newEmail) == t.newEmail
  {
  }

  /**
    What a step that creates somebody writes: the candidate at a free, normalised address, or
    what the hook made of it.
   */
  predicate CreatedBy(c: Config, step: Step, user: User) {
    && (step.SignUp? || step.Provision?) && user.id == step.id
    && user.password == (if step.SignUp? then Some(step.password) else None)
    && (step.SignUp? ==> c.minPasswordLength <= |step.password| <= c.maxPasswordLength)
    && match step.before
       case Refuses => false
       case Rewrites(email, verified) => user.email == c.normalize(email) && user.emailVerified == verified
       case Stands =>
         user.email == c.normalize(step.email) && (user.emailVerified <==> step.Provision? && step.verified)
  }

  /** Users come only by a creation no hook refused, at an address nobody held, and go only by a deletion. */
  lemma UsersComeAndGoBy(c: Config, s: State, step: Step, u: nat)
    requires Idempotent(c) && Inv(c, s)
    ensures var t := Apply(c, s, step);
            && (u !in s.users && u in t.users ==>
                  && CreatedBy(c, step, t.users[u]) && !step.afterRefuses
                  && forall v :: v in s.users ==> s.users[v].email != t.users[u].email)
            && (u in s.users && u !in t.users ==> Deletes(c, s, step, u))
  {
    hide RetiredForUser, Retired, SessionsWithout, UserGood, TokenGood;
    forall id | id in s.users ensures s.users[id].id == id {
      KeepsId(c, s, id);
    }
    if step.SignUp? || step.Provision? {
      if u in s.users {
        BornBefore(c, s, u);
      }
      BornOf(c, s, step, u);
    } else {
      FoundById(c, s);
    }
  }

  lemma BornOf(c: Config, s: State, step: Step, u: nat)
    requires (step.SignUp? || step.Provision?) && (u in s.users ==> u in s.past.births)
    ensures var t := Apply(c, s, step);
            && (u !in s.users && u in t.users ==>
                  && CreatedBy(c, step, t.users[u]) && !step.afterRefuses
                  && forall v :: v in s.users ==> s.users[v].email != t.users[u].email)
            && (u in s.users ==> u in t.users)
  {
    var t := Apply(c, s, step);
    if u !in s.users && u in t.users {
      forall v | v in s.users ensures s.users[v].email != t.users[u].email {
        assert Holds(s, s.users[v].email, v);
      }
    }
  }

  lemma FoundById(c: Config, s: State)
    requires UsersGood(c, s)
    ensures forall email :: FindByEmail(s, email).Some? ==> FindByEmail(s, email).value.id in s.users
  {
    forall email | FindByEmail(s, email).Some? ensures FindByEmail(s, email).value.id in s.users {
      FoundIs(c, s, email);
    }
  }

  /**
    A call that may end this session: a reset or deletion of its user, or a change of password
    from another session.
   */
  predicate EndsSession(c: Config, s: State, step: Step, x: nat)
    requires x in s.sessions
  {
    || (step.ResetPassword? && GivesPassword(s, step, s.sessions[x], step.password))
    || (step.ChangePassword? && GivesPassword(s, step, s.sessions[x], step.password)
        && step.revokeOthers && step.current != Some(x))
    || Deletes(c, s, step, s.sessions[x])
  }

  /** A session stays its user's, and ends only by such a call; it begins only for somebody there. */
  lemma SessionsEndOnlyBy(c: Config, s: State, step: Step, x: nat)
    requires Idempotent(c) && Inv(c, s)
    ensures var t := Apply(c, s, step);
            && (x in s.sessions && x in t.sessions ==> t.sessions[x] == s.sessions[x])
            && (x in s.sessions && x !in t.sessions ==> EndsSession(c, s, step, x))
            && (x !in s.sessions && x in t.sessions ==>
                step == OpenSession(x, t.sessions[x]) && t.sessions[x] in s.users)
  {
    hide RetiredForUser, Retired, FindByEmail, Row, UserGood, TokenGood;
    if step.ConfirmDeletion? && step.id in s.users {
      KeepsId(c, s, step.id);
    }
  }

  /** Somebody holds this address; the unique index makes them the only one. */
  ghost predicate HeldBy(s: State, email: string, user: User) {
    user.id in s.users && s.users[user.id] == user && user.email == email
  }

  /**
    Asking for mail: a reset reaches whoever holds the address, a verification whoever
    holds it unverified, and for nobody there is no trace. A confirmed deletion mails the
    address the caller knew and deletes nobody yet; an unconfirmed one mails nobody.
   */
  lemma AskingMails(c: Config, s: State, email: string, secret: string, user: User)
    requires Inv(c, s) && FreshSecret(s, secret)
    ensures var reset := Apply(c, s, RequestReset(email, secret));
            && (HeldBy(s, c.normalize(email), user) ==>
                  && secret in reset.tokens && reset.tokens[secret].kind == PasswordReset
                  && reset.tokens[secret].subject == OfUser(user.id) && reset.tokens[secret].mailedTo == user.email)
            && ((forall u :: u in s.users ==> s.users[u].email != c.normalize(email)) ==> reset == s)
    ensures var sent := Apply(c, s, SendVerificationEmail(email, secret));
            && (HeldBy(s, c.normalize(email), user) && !user.emailVerified ==>
                  && secret in sent.tokens && sent.tokens[secret].kind == EmailVerify
                  && sent.tokens[secret].subject == OfAddress(user.email) && sent.tokens[secret].mailedTo == user.email)
            && (HeldBy(s, c.normalize(email), user) && user.emailVerified ==> sent == s)
            && ((forall u :: u in s.users ==> s.users[u].email != c.normalize(email)) ==> sent == s)
    ensures user in s.past.rows ==>
              var asked, refused :=
                Apply(c, s, RequestDeletion(user, false, secret)), Apply(c, s, RequestDeletion(user, true, secret));
              && refused == s
              && (if c.confirmByEmail then
                    && asked.users == s.users && secret in asked.tokens && asked.tokens[secret].kind == DeleteAccount
                    && asked.tokens[secret].subject == OfUser(user.id) && asked.tokens[secret].mailedTo == user.email
                  else user.id !in asked.users && secret !in asked.tokens)
  {
    hide TokenGood, RetiredForUser;
    SecretIsNew(c, s, secret);
    RetiredForUserExactly(s.tokens, user.id);
    if HeldBy(s, c.normalize(email), user) {
      assert UserGood(c, s, user.id);
      OneHolder(c, s, c.normalize(email), user.id);
    }
    assert Taken(s, c.normalize(email)) ==> exists u :: u in s.users && s.users[u].email == c.normalize(email);
  }

  /** The kind of link each call mails, if it mails one. */
  predicate Mails(s: State, step: Step, kind: Kind, secret: string) {
    match step
    case SignUp(_, _, _, _, _, drawn) => kind == EmailVerify && secret == drawn
    case SendVerificationEmail(_, drawn) => kind == EmailVerify && secret == drawn
    case RequestReset(_, drawn) => kind == PasswordReset && secret == drawn
    case RequestEmailChange(user, _, refused, drawn) =>
      kind == (if user.emailVerified then ChangeConfirm else ChangeVerify) && secret == drawn && !refused
    case ConfirmEmailChange(token, drawn) =>
      kind == ChangeVerify && secret == drawn && Claimable(s, token, ChangeConfirm)
    case RequestDeletion(_, refused, drawn) => kind == DeleteAccount && secret == drawn && !refused
    case _ => false
  }

  /**
    A link is minted by a call that mails its kind, under a secret never used before, to
    expire after its kind's lifetime; while it is outstanding nothing about it changes
    but the time.
   */
  lemma LinksComeBy(c: Config, s: State, step: Step, k: string)
    requires Inv(c, s)
    ensures var t := Apply(c, s, step);
            && (if step.Tick? then t == s.(now := s.now + step.elapsed) else t.now == s.now)
            && (k in s.tokens && k in t.tokens ==> t.tokens[k] == s.tokens[k])
            && (k !in s.tokens && k in t.tokens ==>
                  && Mails(s, step, t.tokens[k].kind, k) && k !in s.past.minted
                  && t.tokens[k].expiresAt == s.now + c.ttl(t.tokens[k].kind))
  {
    if step.SignUp? || step.SendVerificationEmail? || step.RequestReset? || step.RequestEmailChange?
       || step.ConfirmEmailChange? || (step.RequestDeletion? && c.confirmByEmail) {
      MailersMint(c, s, step);
    } else {
      OthersOnlyRemove(c, s, step);
    }
    assert s.tokens.Keys <= s.past.minted;
  }

  /** `t` has the links of `s`, some perhaps gone, and one of this kind under this secret. */
  predicate MintsOne(c: Config, s: State, t: State, kind: Kind, secret: string) {
    && (forall k :: k in t.tokens && k != secret ==> k in s.tokens && t.tokens[k] == s.tokens[k])
    && secret in t.tokens && t.tokens[secret].kind == kind && t.tokens[secret].expiresAt == s.now + c.ttl(kind)
  }

  lemma MailersMint(c: Config, s: State, step: Step)
    requires step.SignUp? || step.SendVerificationEmail? || step.RequestReset? || step.RequestEmailChange?
             || step.ConfirmEmailChange? || (step.RequestDeletion? && c.confirmByEmail)
    ensures var t := Apply(c, s, step);
            && t.now == s.now
            && (FewerTokens(s, t)
                || (FreshSecret(s, step.secret)
                    && exists kind :: Mails(s, step, kind, step.secret) && MintsOne(c, s, t, kind, step.secret)))
  {
    hide FindByEmail, Row, Minted, Hop, Creates;
    var t := Apply(c, s, step);
    MintIs(c);
    if !FewerTokens(s, t) {
      var kind := t.tokens[step.secret].kind;
      assert MintsOne(c, s, t, kind, step.secret) && Mails(s, step, kind, step.secret);
    }
  }

  lemma MintIs(c: Config)
    ensures forall s, secret, kind, subject, newEmail, mailedTo, origin ::
              var t := Minted(c, s, secret, kind, subject, newEmail, mailedTo, origin);
              MintsOne(c, s, t, kind, secret) && t.now == s.now
    ensures forall s, secret, kind, user, newEmail, mailedTo, origin ::
              var t := Hop(c, s, secret, kind, user, newEmail, mailedTo, origin);
              MintsOne(c, s, t, kind, secret) && t.now == s.now
  {
  }

  lemma OthersOnlyRemove(c: Config, s: State, step: Step)
    requires !step.SignUp? && !step.SendVerificationEmail? && !step.RequestReset? && !step.RequestEmailChange?
    requires !step.ConfirmEmailChange? && !(step.RequestDeletion? && c.confirmByEmail)
    ensures FewerTokens(s, Apply(c, s, step)) && (step.Tick? || Apply(c, s, step).now == s.now)
  {
    hide RetiredForUser, FindByEmail, Row;
    match step
    case ResetPassword(token, _) =>
      if token in s.tokens && s.tokens[token].subject.OfUser? {
        RetiredForUserExactly(s.tokens - {token}, s.tokens[token].subject.id);
      }
    case ChangePassword(id, _, _, _) => RetiredForUserExactly(s.tokens, id);
    case VerifyEmailChange(token) =>
      if token in s.tokens && s.tokens[token].subject.OfUser? {
        RetiredForUserExactly(s.tokens - {token}, s.tokens[token].subject.id);
      }
    case ConfirmDeletion(token, id, _) =>
      if id in s.users {
        RetiredForUserExactly(s.tokens - {token}, s.users[id].id);
      }
    case RequestDeletion(user, _, _) => RetiredForUserExactly(s.tokens, user.id);
    case Delete(user) => RetiredForUserExactly(s.tokens, user.id);
    case _ =>
  }

  /** A call presents this link, of the kind it takes. */
  predicate Presents(s: State, step: Step, k: string) {
    match step
    case VerifyEmail(token) => token == k && Claimable(s, k, EmailVerify)
    case ResetPassword(token, _) => token == k && Claimable(s, k, PasswordReset)
    case ConfirmEmailChange(token, _) => token == k && Claimable(s, k, ChangeConfirm)
    case VerifyEmailChange(token) => token == k && Claimable(s, k, ChangeVerify)
    case ConfirmDeletion(token, _, _) => token == k && Claimable(s, k, DeleteAccount)
    case _ => false
  }

  /** A call that mails a user another link of a kind they have at most one of. */
  predicate Replaces(s: State, step: Step, t: Token) {
    match step
    case RequestEmailChange(user, _, refused, _) =>
      t.subject == OfUser(user.id) && t.kind == (if user.emailVerified then ChangeConfirm else ChangeVerify) && !refused
    case ConfirmEmailChange(token, _) =>
      t.kind == ChangeVerify && Claimable(s, token, ChangeConfirm) && t.subject == s.tokens[token].subject
    case RequestDeletion(user, refused, _) => t.kind == DeleteAccount && t.subject == OfUser(user.id) && !refused
    case _ => false
  }

  /** A call that re-secures or deletes the user a link names, or moves or deletes one who had the address it names. */
  ghost predicate Overtakes(c: Config, s: State, step: Step, t: Token) {
    match t.subject
    case OfUser(id) => Resecures(c, s, step, id) || Deletes(c, s, step, id)
    case OfAddress(email) => exists r :: r in s.past.rows && Leaves(c, s, step, r) && c.normalize(r.email) == email
  }

  /** The user of this row, current or old, is deleted by it, or moves from it. */
  predicate Leaves(c: Config, s: State, step: Step, row: User) {
    || Deletes(c, s, step, row.id)
    || (step.VerifyEmailChange? && Resecures(c, s, step, row.id) && s.users[row.id] == row)
  }

  /** A link goes only by being presented, replaced or overtaken; nothing else takes it from its owner. */
  lemma LinksGoBy(c: Config, s: State, step: Step, k: string)
    requires Idempotent(c) && Inv(c, s) && k in s.tokens && k !in Apply(c, s, step).tokens
    ensures Presents(s, step, k) || Replaces(s, step, s.tokens[k]) || Overtakes(c, s, step, s.tokens[k])
  {
    hide Apply, Inv, Overtakes, Replaces, Presents;
    match step
    case ResetPassword(_, _) => GoneOnPassword(c, s, step, k);
    case ChangePassword(_, _, _, _) => GoneOnPassword(c, s, step, k);
    case VerifyEmailChange(token) => GoneOnMove(c, s, token, k);
    case ConfirmDeletion(_, _, _) => GoneOnConfirm(c, s, step, k);
    case RequestDeletion(_, _, _) => GoneOnRequest(c, s, step, k);
    case Delete(_) => GoneOnRequest(c, s, step, k);
    case _ => GoneOnHop(c, s, step, k);
  }

  lemma GoneOnPassword(c: Config, s: State, step: Step, k: string)
    requires (step.ResetPassword? || step.ChangePassword?) && k in s.tokens && k !in Apply(c, s, step).tokens
    ensures Presents(s, step, k) || Overtakes(c, s, step, s.tokens[k])
  {
    hide RetiredForUser;
    match step
    case ResetPassword(token, _) =>
      RetiredForUserExactly(s.tokens - {token}, s.tokens[token].subject.id);
    case ChangePassword(id, _, _, _) => RetiredForUserExactly(s.tokens, id);
  }

  lemma GoneOnConfirm(c: Config, s: State, step: Step, k: string)
    requires Inv(c, s) && step.ConfirmDeletion? && k in s.tokens && k !in Apply(c, s, step).tokens
    ensures Presents(s, step, k) || Overtakes(c, s, step, s.tokens[k])
  {
    hide Deleted;
    if k != step.token && step.id in s.users {
      KeepsId(c, s, step.id);
      GoneOnDelete(c, Spent(s, step.token), s.users[step.id], k);
    }
  }

  lemma GoneOnRequest(c: Config, s: State, step: Step, k: string)
    requires (step.RequestDeletion? || step.Delete?) && k in s.tokens && k !in Apply(c, s, step).tokens
    ensures Replaces(s, step, s.tokens[k]) || Overtakes(c, s, step, s.tokens[k])
  {
    hide Deleted;
    if step.Delete? || !c.confirmByEmail {
      GoneOnDelete(c, s, step.user, k);
    }
  }

  lemma GoneOnHop(c: Config, s: State, step: Step, k: string)
    requires Inv(c, s) && !step.ResetPassword? && !step.ChangePassword? && !step.VerifyEmailChange?
             && !step.ConfirmDeletion?
    requires !step.RequestDeletion? && !step.Delete? && k in s.tokens && k !in Apply(c, s, step).tokens
    ensures Presents(s, step, k) || Replaces(s, step, s.tokens[k])
  {
    hide FindByEmail, Row, Inv, Taken;
    forall id | id in s.users ensures s.users[id].id == id {
      KeepsId(c, s, id);
    }
  }

  lemma GoneOnDelete(c: Config, s: State, user: User, k: string)
    requires k in s.tokens && k !in Deleted(c, s, user).tokens
    ensures s.tokens[k].subject == OfUser(user.id) || s.tokens[k].subject == OfAddress(c.normalize(user.email))
  {
    RetiredForUserExactly(s.tokens, user.id);
  }

  lemma GoneOnMove(c: Config, s: State, token: string, k: string)
    requires Inv(c, s) && k in s.tokens && k !in Apply(c, s, VerifyEmailChange(token)).tokens
    ensures Presents(s, VerifyEmailChange(token), k) || Overtakes(c, s, VerifyEmailChange(token), s.tokens[k])
  {
    hide FindByEmail, Row, Deleted, RetiredForUser;
    if k != token {
      var id := s.tokens[token].subject.id;
      RetiredForUserExactly(s.tokens - {token}, id);
      KeepsId(c, s, id);
      assert Leaves(c, s, VerifyEmailChange(token), s.users[id]);
    }
  }

  // ---------------------------------------------------------------------------
  // Re-securing an account
  // ---------------------------------------------------------------------------

  /** Calls that re-secure a user: a reset, a change of password or address, a deletion, each when it goes through. */
  predicate Resecures(c: Config, s: State, step: Step, id: nat) {
    && id in s.users
    && match step
       case ResetPassword(token, password) =>
         Allowed(c, password) && Claimable(s, token, PasswordReset) && s.tokens[token].subject == OfUser(id)
       case ChangePassword(u, password, _, _) => u == id && Allowed(c, password) && s.users[id].password.Some?
       case VerifyEmailChange(token) =>
         var email := if token in s.tokens then c.normalize(s.tokens[token].newEmail) else "";
         && Claimable(s, token, ChangeVerify) && s.tokens[token].subject == OfUser(id)
         && (!Taken(s, email) || s.users[id].email == email)
       case _ => Deletes(c, s, step, id)
  }

  /** A deletion, mailed or asked for directly, by the row its caller knew. */
  predicate Deletes(c: Config, s: State, step: Step, id: nat) {
    match step
    case ConfirmDeletion(token, u, refused) =>
      u == id && Claimable(s, token, DeleteAccount) && s.tokens[token].subject == OfUser(id) && !refused
    case RequestDeletion(user, refused, _) => user.id == id && user in s.past.rows && !refused && !c.confirmByEmail
    case Delete(user) => user.id == id && user in s.past.rows
    case _ => false
  }

  predicate NoLinks(s: State, id: nat) { forall k :: k in s.tokens ==> s.tokens[k].subject != OfUser(id) }

  /** Of the user's sessions at most the one kept is left. */
  predicate NoSessionsBut(s: State, id: nat, kept: Option<nat>) {
    forall x :: x in s.sessions && s.sessions[x] == id ==> kept == Some(x)
  }

  predicate NoAddressLinks(s: State, email: string) {
    forall k :: k in s.tokens ==> s.tokens[k].subject != OfAddress(email)
  }

  /**
    After it no link of that user is left, nor, when the user is gone or has moved,
    a link for the address they had. A reset or a deletion leaves no session, and a
    change of password none but the current one unless it was told to leave them.
   */
  lemma ResecuredLeavesNothing(c: Config, s: State, step: Step, id: nat)
    requires Idempotent(c) && Inv(c, s) && Resecures(c, s, step, id)
    ensures NoLinks(Apply(c, s, step), id)
    ensures step.ResetPassword? || Deletes(c, s, step, id) ==> NoSessionsBut(Apply(c, s, step), id, None)
    ensures step.ChangePassword? && step.revokeOthers ==> NoSessionsBut(Apply(c, s, step), id, step.current)
    ensures step.VerifyEmailChange? || Deletes(c, s, step, id) ==> NoAddressLinks(Apply(c, s, step), s.users[id].email)
  {
    hide RetiredForUser;
    var before := if step.ResetPassword? || step.VerifyEmailChange? || step.ConfirmDeletion?
                  then s.tokens - {step.token}
                  else s.tokens;
    RetiredForUserExactly(before, id);
    assert UserGood(c, s, id);
    forall k | k in s.tokens ensures AddressLinkNames(c, s, s.tokens[k], id) {
      AddressLinkIs(c, s, s.tokens[k], id);
    }
  }

  /** A link for the address a user has is a verification link, and every row they had bore that address. */
  predicate AddressLinkNames(c: Config, s: State, t: Token, id: nat)
    requires id in s.users
  {
    && (t.kind.EmailVerify? <==> t.subject.OfAddress?)
    && (t.subject == OfAddress(s.users[id].email) ==> NeverMoved(s, id, s.users[id].email))
  }

  lemma AddressLinkIs(c: Config, s: State, t: Token, id: nat)
    requires UsersGood(c, s) && id in s.users && TokenGood(c, s, t)
    ensures AddressLinkNames(c, s, t, id)
  {}

  lemma {:induction false} SpentStays(c: Config, s: State, steps: seq<Step>, k: string)
    requires k in s.past.minted && k !in s.tokens
    ensures k !in Run(c, s, steps).tokens
    decreases |steps|
  {
    if steps != [] {
      SpentStaysStep(c, s, steps[0], k);
      hide Apply;
      SpentStays(c, Apply(c, s, steps[0]), steps[1..], k);
    }
  }

  lemma SpentStaysStep(c: Config, s: State, step: Step, k: string)
    requires k in s.past.minted && k !in s.tokens
    ensures k in Apply(c, s, step).past.minted && k !in Apply(c, s, step).tokens
  {
    hide RetiredForUser;
    NoneRevived(s, step);
  }

  /** A link outstanding when an account is re-secured opens nothing, then or ever after. */
  lemma ResecuredForGood(c: Config, now: int, steps: seq<Step>, step: Step, more: seq<Step>, id: nat, k: string,
                         kind: Kind)
    requires Idempotent(c)
    requires var s := Run(c, Initial(now), steps);
             Resecures(c, s, step, id) && k in s.tokens && s.tokens[k].subject == OfUser(id)
    ensures !Claimable(Run(c, Apply(c, Run(c, Initial(now), steps), step), more), k, kind)
  {
    var s := Run(c, Initial(now), steps);
    RunKeepsInv(c, Initial(now), steps);
    ResecuredLeavesNothing(c, s, step, id);
    OnlyThatUser(c, s, step, id, k);
    SpentStays(c, Apply(c, s, step), more, k);
  }

  lemma OnlyThatUser(c: Config, s: State, step: Step, id: nat, k: string)
    requires Idempotent(c) && Inv(c, s) && Resecures(c, s, step, id) && k in s.tokens
             && s.tokens[k].subject == OfUser(id)
    ensures k in Apply(c, s, step).past.minted && k !in Apply(c, s, step).tokens
  {
    hide RetiredForUser;
    RetiredForUserExactly(s.tokens, id);
    if step.ResetPassword? || step.VerifyEmailChange? || step.ConfirmDeletion? {
      RetiredForUserExactly(s.tokens - {step.token}, id);
    }
    assert TokenGood(c, s, s.tokens[k]);
  }

  // ---------------------------------------------------------------------------
  // The services, call by call
  // ---------------------------------------------------------------------------

  datatype Refusal =
    | TooShort | TooLong | InvalidToken | InvalidCredentials | PasswordAlreadySet | EmailUnchanged | UserAlreadyExists
    | PolicyRefused | PersistenceError

  datatype ChangeOutcome = Ignored | VerificationSent | ConfirmationSent

  /** What `requestEmailChange` answers: the policy hears of a request before the table of addresses is read. */
  function ChangeReply(c: Config, s: State, user: User, newEmail: string, refused: bool)
      : Result<ChangeOutcome, Refusal> {
    var email := c.normalize(newEmail);
    if email == c.normalize(user.email) then Failure(EmailUnchanged)
    else if refused then Failure(PolicyRefused)
    else if Taken(s, email) then Success(Ignored)
    else if user.emailVerified then Success(ConfirmationSent)
    else Success(VerificationSent)
  }

  /** What `checkPolicy` answers. */
  function Violation(c: Config, password: string): (r: Option<Refusal>)
    ensures r.None? <==> Allowed(c, password)
    ensures r == Some(TooShort) <==> |password| < c.minPasswordLength
  {
    if |password| < c.minPasswordLength then Some(TooShort)
    else if |password| > c.maxPasswordLength then Some(TooLong)
    else None
  }

  /** What `signUp` answers, the refusals in the order they are reached. */
  function SignUpReply(c: Config, s: State, id: nat, email: string, password: string, before: Policy,
                       afterRefuses: bool)
      : Result<User, Refusal> {
    var user := Row(c, id, email, false, Some(password), before);
    if !Allowed(c, password) then Failure(Violation(c, password).value)
    else if Taken(s, c.normalize(email)) then Failure(UserAlreadyExists)
    else if before.Refuses? then Failure(PolicyRefused)
    else if Taken(s, user.email) then Failure(UserAlreadyExists)
    else if afterRefuses then Failure(PolicyRefused)
    else Success(user)
  }

  /** The user a link names is still there. */
  predicate Named(s: State, token: string) {
    token in s.tokens && s.tokens[token].subject.OfUser? && s.tokens[token].subject.id in s.users
  }

  /**
    What an answer to a sign-up says: each refusal's exact condition, which leaves no trace,
    and otherwise the user, stored, and mailed a link exactly where verification is required.
   */
  lemma SignUpAnswersMean(c: Config, s: State, id: nat, email: string, password: string, before: Policy,
                          afterRefuses: bool, secret: string)
    requires Inv(c, s) && id !in s.past.births && FreshSecret(s, secret)
    ensures var reply := SignUpReply(c, s, id, email, password, before, afterRefuses);
            var t := Apply(c, s, SignUp(id, email, password, before, afterRefuses, secret));
            var stored := c.normalize(if before.Rewrites? then before.email else email);
            var allowed := c.minPasswordLength <= |password| <= c.maxPasswordLength;
            var inUse := exists u :: u in s.users && s.users[u].email == c.normalize(email);
            var storedInUse := exists u :: u in s.users && s.users[u].email == stored;
            && (reply == Failure(TooShort) <==> |password| < c.minPasswordLength)
            && (reply == Failure(TooLong) <==> c.minPasswordLength <= |password| && c.maxPasswordLength < |password|)
            && (reply == Failure(UserAlreadyExists) <==> allowed && (inUse || (!before.Refuses? && storedInUse)))
            && (reply == Failure(PolicyRefused) <==>
                  allowed && !inUse && (before.Refuses? || (!storedInUse && afterRefuses)))
            && (reply.Failure? ==> t == s && reply.error in {TooShort, TooLong, UserAlreadyExists, PolicyRefused})
            && (reply.Success? ==>
                  && reply.value.email == stored && t.users == s.users[id := reply.value]
                  && (secret in t.tokens <==> c.requireEmailVerification)
                  && (secret in t.tokens ==>
                      t.tokens[secret].mailedTo == stored && t.tokens[secret].kind == EmailVerify))
  {
    hide TokenGood, UserGood;
    SecretIsNew(c, s, secret);
    var stored := c.normalize(if before.Rewrites? then before.email else email);
    TakenIs(s, c.normalize(email));
    TakenIs(s, stored);
  }

  lemma TakenIs(s: State, email: string)
    ensures Taken(s, email) <==> exists u :: u in s.users && s.users[u].email == email
  {
    if u :| u in s.users && s.users[u].email == email {
      assert Holds(s, email, u);
    }
  }

  /** Provisioning creates exactly when no hook refuses and the address stored is free. */
  lemma ProvisionCreates(c: Config, s: State, id: nat, email: string, verified: bool, before: Policy,
                         afterRefuses: bool)
    requires id !in s.past.births
    ensures var t := Apply(c, s, Provision(id, email, verified, before, afterRefuses));
            var stored := c.normalize(if before.Rewrites? then before.email else email);
            if before.Refuses? || afterRefuses || (exists u :: u in s.users && s.users[u].email == stored) then t == s
            else id in t.users && t.users[id].email == stored && t.tokens == s.tokens
  {
    TakenIs(s, c.normalize(if before.Rewrites? then before.email else email));
  }

  /**
    What an answer to a request to change address says of the state it leaves: a second hop
    mailed to the new address, which is free; a first hop mailed to the old one; or, for an
    address in use, the first hop all the same to somebody verified and nothing to anybody else.
   */
  lemma ChangeAnswersMean(c: Config, s: State, user: User, newEmail: string, refused: bool, secret: string)
    requires Inv(c, s) && user in s.past.rows && FreshSecret(s, secret)
    ensures var t := Apply(c, s, RequestEmailChange(user, newEmail, refused, secret));
            var reply, email := ChangeReply(c, s, user, newEmail, refused), c.normalize(newEmail);
            var inUse := exists u :: u in s.users && s.users[u].email == email;
            var asked := email != c.normalize(user.email) && !refused;
            && (reply == Failure(EmailUnchanged) <==> email == c.normalize(user.email))
            && (reply.Failure? <==> !asked) && (reply.Failure? ==> t == s)
            && (reply == Failure(PolicyRefused) <==> email != c.normalize(user.email) && refused)
            && (reply == Success(Ignored) <==> asked && inUse)
            && (reply == Success(VerificationSent) <==> secret in t.tokens && t.tokens[secret].kind == ChangeVerify)
            && (reply == Success(ConfirmationSent) <==>
                  secret in t.tokens && t.tokens[secret].kind == ChangeConfirm && !inUse)
            && (secret in t.tokens <==> asked && (user.emailVerified || !inUse))
            && (secret in t.tokens ==>
                  && t.tokens[secret].subject == OfUser(user.id) && t.tokens[secret].newEmail == email
                  && t.tokens[secret].mailedTo == (if user.emailVerified then user.email else email))
  {
    hide TokenGood, UserGood;
    assert (exists u :: u in s.users && s.users[u].email == c.normalize(newEmail)) <==>
             Taken(s, c.normalize(newEmail)) by {
      if u :| u in s.users && s.users[u].email == c.normalize(newEmail) {
        assert Holds(s, c.normalize(newEmail), u);
      }
    }
  }

  class UsersService {
    const config: Config
    var now: int
    var users: map<nat, User>
    var sessions: map<nat, nat>
    var tokens: map<string, Token>
    ghost var past: History

    constructor (config: Config, now: int)
      ensures this.config == config && Model() == Initial(now)
    {
      this.config := config;
      this.now := now;
      users, sessions, tokens := map[], map[], map[];
      past := History({}, map[], {}, {}, {});
    }

    ghost function Model(): State
      reads this
    {
      State.State(now, users, sessions, tokens, past)
    }

    ghost predicate Valid()
      reads this
    {
      Idempotent(config) && Inv(config, Model())
    }

    method Lookup(email: string) returns (found: Option<User>)
      requires Valid()
      ensures found == FindByEmail(Model(), email)
    {
      if u :| u in users && users[u].email == email {
        assert Holds(Model(), email, u);
        OneHolder(config, Model(), email, u);
        return Some(users[u]);
      }
      assert forall u :: !Holds(Model(), email, u);
      return None;
    }

    method Retire(kind: Kind, subject: Subject)
      modifies this`tokens
      ensures tokens == Retired(old(tokens), kind, subject)
    {
      tokens := Retired(tokens, kind, subject);
    }

    method RetireUserSubjectTokens(id: nat)
      modifies this`tokens
      ensures tokens == RetiredForUser(old(tokens), id)
    {
      for i := 0 to |USER_SUBJECT_KINDS|
        invariant RetiredKinds(tokens, USER_SUBJECT_KINDS[i..], id) == RetiredForUser(old(tokens), id)
      {
        Retire(USER_SUBJECT_KINDS[i], OfUser(id));
      }
    }

    method Issue(secret: string, kind: Kind, subject: Subject, newEmail: string, mailedTo: string, origin: Origin)
      modifies this`tokens, this`past
      ensures Model() == Minted(config, old(Model()), secret, kind, subject, newEmail, mailedTo, origin)
    {
      tokens := tokens[secret := Token(kind, subject, newEmail, now + config.ttl(kind), mailedTo, origin)];
      past := past.(minted := past.minted + {secret});
    }

    /** The atomic claim: the row goes, and comes back to exactly this caller. */
    method Claim(kind: Kind, secret: string) returns (claimed: Option<Token>)
      modifies this`tokens
      ensures claimed == if Claimable(old(Model()), secret, kind) then Some(old(tokens)[secret]) else None
      ensures tokens == if claimed.Some? then old(tokens) - {secret} else old(tokens)
    {
      if secret in tokens && tokens[secret].kind == kind && now < tokens[secret].expiresAt {
        claimed := Some(tokens[secret]);
        tokens := tokens - {secret};
      } else {
        claimed := None;
      }
    }

    method SendVerificationHop(user: User, newEmail: string, secret: string, origin: Origin)
      modifies this`tokens, this`past
      ensures Model() == Hop(config, old(Model()), secret, ChangeVerify, user, newEmail, newEmail, origin)
    {
      Retire(ChangeVerify, OfUser(user.id));
      Issue(secret, ChangeVerify, OfUser(user.id), newEmail, newEmail, origin);
    }

    method Write(user: User)
      modifies this`users, this`past
      ensures Model() == Written(old(Model()), user)
    {
      users := users[user.id := user];
      past := past.(rows := past.rows + {user});
    }

    method RequestEmailChange(user: User, newEmail: string, refused: bool, secret: string)
        returns (r: Result<ChangeOutcome, Refusal>)
      requires Valid() && user in past.rows && FreshSecret(Model(), secret)
      modifies this
      ensures Valid()
              && Model() == Apply(config, old(Model()), Step.RequestEmailChange(user, newEmail, refused, secret))
      ensures r == ChangeReply(config, old(Model()), user, newEmail, refused)
    {
      hide Inv, Hop;
      KeepsInv(config, Model(), Step.RequestEmailChange(user, newEmail, refused, secret));
      var email := config.normalize(newEmail);
      if email == config.normalize(user.email) {
        return Failure(EmailUnchanged);
      }
      if refused {
        return Failure(PolicyRefused);
      }
      var holder := Lookup(email);
      FoundIffTaken(Model(), email);
      var taken := holder.Some?;
      if !user.emailVerified {
        if taken {
          return Success(Ignored);
        }
        SendVerificationHop(user, email, secret, Requested(user));
        return Success(VerificationSent);
      }
      HopUnfolds(config, Model(), secret, ChangeConfirm, user, email, user.email, Requested(user));
      Retire(ChangeConfirm, OfUser(user.id));
      Issue(secret, ChangeConfirm, OfUser(user.id), email, user.email, Requested(user));
      return Success(if taken then Ignored else ConfirmationSent);
    }

    method ConfirmEmailChange(token: string, secret: string) returns (r: Result<(), Refusal>)
      requires Valid() && FreshSecret(Model(), secret)
      modifies this
      ensures Valid() && Model() == Apply(config, old(Model()), Step.ConfirmEmailChange(token, secret))
      ensures r == if Claimable(old(Model()), token, ChangeConfirm) && Named(old(Model()), token) then Success(())
                   else Failure(InvalidToken)
      ensures users == old(users) && (r.Success? ==> token !in tokens)
      ensures r.Success? ==>
                var email := config.normalize(old(tokens)[token].newEmail);
                if exists u :: u in users && users[u].email == email then secret !in tokens
                else && secret in tokens && tokens[secret].kind == ChangeVerify && tokens[secret].newEmail == email
                     && tokens[secret].subject == old(tokens)[token].subject && tokens[secret].mailedTo == email
    {
      hide Inv;
      SecretIsNew(config, Model(), secret);
      KeepsInv(config, Model(), Step.ConfirmEmailChange(token, secret));
      HopTokensNameUsers(config, Model(), token);
      var claimed := Claim(ChangeConfirm, token);
      if claimed.None? {
        return Failure(InvalidToken);
      }
      var id, email := claimed.value.subject.id, config.normalize(claimed.value.newEmail);
      past := past.(hopOnes := past.hopOnes + {(id, email)});
      if id !in users {
        return Failure(InvalidToken);
      }
      KeepsId(config, old(Model()), id);
      if exists u :: u in users && users[u].email == email {
        assert Taken(old(Model()), email) by {
          var u :| u in users && users[u].email == email;
          assert Holds(old(Model()), email, u);
        }
        return Success(());
      }
      SendVerificationHop(users[id], email, secret, FollowedHopOne(id));
      return Success(());
    }

    method VerifyEmailChange(token: string) returns (r: Result<User, Refusal>)
      requires Valid()
      modifies this
      ensures Valid() && Model() == Apply(config, old(Model()), Step.VerifyEmailChange(token))
      ensures r == Failure(InvalidToken) <==>
                !(Claimable(old(Model()), token, ChangeVerify) && Named(old(Model()), token))
      ensures r.Success? ==>
                && old(tokens)[token].subject == OfUser(r.value.id) && r.value.id in old(users)
                && users == old(users)[r.value.id := r.value] && NoLinks(Model(), r.value.id)
                && r.value == old(users)[r.value.id].(email := old(tokens)[token].mailedTo, emailVerified := true)
      ensures r.Failure? ==> users == old(users) && r.error in {InvalidToken, UserAlreadyExists}
    {
      hide RetiredForUser, Retired;
      KeepsInv(config, Model(), Step.VerifyEmailChange(token));
      HopTokensNameUsers(config, Model(), token);
      ghost var before := Model();
      var claimed := Claim(ChangeVerify, token);
      if claimed.None? {
        return Failure(InvalidToken);
      }
      MailedWhereItMoves(config, before, claimed.value);
      var id, email := claimed.value.subject.id, config.normalize(claimed.value.newEmail);
      if id !in users {
        return Failure(InvalidToken);
      }
      var user := users[id];
      KeepsId(config, before, id);
      if user.email != email && exists u :: u in users && users[u].email == email {
        assert Taken(before, email) by {
          var u :| u in users && users[u].email == email;
          assert Holds(before, email, u);
        }
        return Failure(UserAlreadyExists);
      }
      ResecuredLeavesNothing(config, before, Step.VerifyEmailChange(token), id);
      Write(user.(email := email, emailVerified := true));
      RetireUserSubjectTokens(id);
      Retire(EmailVerify, OfAddress(config.normalize(user.email)));
      past := past.(proven := past.proven + {(id, claimed.value.mailedTo)});
      assert Model() == Moved(config, before, token, id, email);
      return Success(users[id]);
    }

    method VerifyEmail(token: string) returns (verified: Option<User>)
      requires Valid()
      modifies this
      ensures Valid() && Model() == Apply(config, old(Model()), Step.VerifyEmail(token))
      ensures verified.Some? <==> Claimable(old(Model()), token, EmailVerify)
      ensures verified.Some? ==>
                && verified.value.id in old(users) && users == old(users)[verified.value.id := verified.value]
                && verified.value == old(users)[verified.value.id].(emailVerified := true)
                && verified.value.email == old(tokens)[token].mailedTo
    {
      hide Inv;
      KeepsInv(config, Model(), Step.VerifyEmail(token));
      ghost var before := Model();
      if Claimable(before, token, EmailVerify) {
        VerifiesItsUser(config, before, token);
      }
      var claimed := Claim(EmailVerify, token);
      if claimed.None? {
        return None;
      }
      SpentKeeps(config, before, token);
      assert Model() == Spent(before, token);
      var found := Lookup(config.normalize(claimed.value.subject.email));
      SameHolders(config, before, Model(), config.normalize(claimed.value.subject.email));
      if found.None? {
        return None;
      }
      var user := found.value.(emailVerified := true);
      Write(user);
      past := past.(proven := past.proven + {(user.id, claimed.value.mailedTo)});
      return Some(user);
    }

    method ResetPassword(token: string, password: string) returns (r: Result<(), Refusal>)
      requires Valid()
      modifies this
      ensures Valid() && Model() == Apply(config, old(Model()), Step.ResetPassword(token, password))
      ensures r == if !Allowed(config, password) then Failure(Violation(config, password).value)
                   else if Claimable(old(Model()), token, PasswordReset) && Named(old(Model()), token) then Success(())
                   else Failure(InvalidToken)
      ensures r.Success? ==> var id := old(tokens)[token].subject.id;
                             && users == old(users)[id := old(users)[id].(password := Some(password))]
                             && NoLinks(Model(), id) && NoSessionsBut(Model(), id, None)
    {
      hide RetiredForUser;
      KeepsInv(config, Model(), Step.ResetPassword(token, password));
      ghost var before := Model();
      HopTokensNameUsers(config, before, token);
      if !Allowed(config, password) {
        return Failure(Violation(config, password).value);
      }
      var claimed := Claim(PasswordReset, token);
      if claimed.None? {
        return Failure(InvalidToken);
      }
      var id := claimed.value.subject.id;
      if id !in users {
        return Failure(InvalidToken);
      }
      KeepsId(config, before, id);
      ResecuredLeavesNothing(config, before, Step.ResetPassword(token, password), id);
      Write(users[id].(password := Some(password)));
      RetireUserSubjectTokens(id);
      sessions := SessionsWithout(sessions, id, None);
      return Success(());
    }

    /** The mail goes out only where verification is required; two sign-ups for one address have one winner. */
    method SignUp(id: nat, email: string, password: string, before: Policy, afterRefuses: bool, secret: string)
        returns (r: Result<User, Refusal>)
      requires Valid() && id !in past.births && FreshSecret(Model(), secret)
      modifies this
      ensures Valid()
      ensures Model() == Apply(config, old(Model()), Step.SignUp(id, email, password, before, afterRefuses, secret))
      ensures r == SignUpReply(config, old(Model()), id, email, password, before, afterRefuses)
      ensures r.Failure? ==> Model() == old(Model())
      ensures r.Success? ==>
                && r.value.id == id && r.value.password == Some(password) && users == old(users)[id := r.value]
                && (if before.Rewrites? then r.value.email == config.normalize(before.email)
                                             && r.value.emailVerified == before.emailVerified
                    else r.value.email == config.normalize(email) && !r.value.emailVerified)
                && (config.requireEmailVerification <==> secret in tokens)
    {
      hide Inv;
      SecretIsNew(config, Model(), secret);
      KeepsInv(config, Model(), Step.SignUp(id, email, password, before, afterRefuses, secret));
      if !Allowed(config, password) {
        return Failure(Violation(config, password).value);
      }
      var holder := Lookup(config.normalize(email));
      FoundIffTaken(Model(), config.normalize(email));
      if holder.Some? {
        return Failure(UserAlreadyExists);
      }
      if before.Refuses? {
        return Failure(PolicyRefused);
      }
      var user := Row(config, id, email, false, Some(password), before);
      holder := Lookup(user.email);
      FoundIffTaken(Model(), user.email);
      if holder.Some? {
        return Failure(UserAlreadyExists);
      }
      if afterRefuses {
        return Failure(PolicyRefused);
      }
      Write(user);
      past := past.(births := past.births[id := user]);
      if config.requireEmailVerification {
        Issue(secret, EmailVerify, OfAddress(config.normalize(user.email)), "", user.email, Requested(user));
      }
      return Success(user);
    }

    /** `matches`: what verifying the current password answered. */
    method ChangePassword(id: nat, matches: bool, password: string, revokeOthers: bool, current: Option<nat>)
        returns (r: Result<(), Refusal>)
      requires Valid()
      modifies this
      ensures r == if !Allowed(config, password) then Failure(Violation(config, password).value)
                   else if matches && id in old(users) && old(users)[id].password.Some? then Success(())
                   else Failure(InvalidCredentials)
      ensures Valid()
      ensures Model() == if r.Failure? then old(Model())
                         else Apply(config, old(Model()), Step.ChangePassword(id, password, revokeOthers, current))
      ensures r.Success? ==> users == old(users)[id := old(users)[id].(password := Some(password))]
                             && NoLinks(Model(), id)
                             && (revokeOthers ==> NoSessionsBut(Model(), id, current))
                             && (!revokeOthers ==> sessions == old(sessions))
    {
      hide RetiredForUser;
      if !Allowed(config, password) {
        return Failure(Violation(config, password).value);
      }
      if !matches || id !in users || users[id].password.None? {
        return Failure(InvalidCredentials);
      }
      KeepsInv(config, Model(), Step.ChangePassword(id, password, revokeOthers, current));
      ResecuredLeavesNothing(config, Model(), Step.ChangePassword(id, password, revokeOthers, current), id);
      KeepsId(config, Model(), id);
      Write(users[id].(password := Some(password)));
      RetireUserSubjectTokens(id);
      if revokeOthers {
        sessions := SessionsWithout(sessions, id, current);
      }
      return Success(());
    }

    method SetPassword(id: nat, password: string) returns (r: Result<(), Refusal>)
      requires Valid()
      modifies this
      ensures Valid() && Model() == Apply(config, old(Model()), Step.SetPassword(id, password))
      ensures r == if !Allowed(config, password) then Failure(Violation(config, password).value)
                   else if id !in old(users) then Failure(PersistenceError)
                   else if old(users)[id].password.Some? then Failure(PasswordAlreadySet)
                   else Success(())
      ensures tokens == old(tokens) && sessions == old(sessions)
      ensures users == if r.Failure? then old(users)
                       else old(users)[id := old(users)[id].(password := Some(password))]
    {
      hide Inv;
      KeepsInv(config, Model(), Step.SetPassword(id, password));
      if !Allowed(config, password) {
        return Failure(Violation(config, password).value);
      }
      if id !in users {
        return Failure(PersistenceError);
      }
      if users[id].password.Some? {
        return Failure(PasswordAlreadySet);
      }
      KeepsId(config, Model(), id);
      Write(users[id].(password := Some(password)));
      return Success(());
    }

    /** By the row the caller read, however old. `removed`: whether there still was a row to delete. */
    method DeleteUser(user: User) returns (removed: bool)
      requires Valid() && user in past.rows
      modifies this
      ensures Valid() && Model() == Apply(config, old(Model()), Step.Delete(user))
      ensures removed <==> user.id in old(users)
      ensures user.id !in users && NoLinks(Model(), user.id)
      ensures removed ==> NoAddressLinks(Model(), old(users)[user.id].email) && NoSessionsBut(Model(), user.id, None)
    {
      hide Inv, RetiredForUser, Retired, NoLinks, NoAddressLinks, NoSessionsBut, SessionsWithout;
      ghost var before := Model();
      KeepsInv(config, before, Step.Delete(user));
      DeletedLeavesNothing(config, before, user);
      removed := user.id in users;
      users := users - {user.id};
      sessions := SessionsWithout(sessions, user.id, None);
      RetireUserSubjectTokens(user.id);
      Retire(EmailVerify, OfAddress(config.normalize(user.email)));
      assert Model() == Deleted(config, before, user);
    }

    /**
      Claimed before its owner is checked and before the policy is asked: a link presented
      by the wrong person, or refused, is burnt all the same.
     */
    method ConfirmDeletion(token: string, id: nat, refused: bool) returns (r: Result<(), Refusal>)
      requires Valid()
      modifies this
      ensures Valid() && Model() == Apply(config, old(Model()), Step.ConfirmDeletion(token, id, refused))
      ensures r == if !Claimable(old(Model()), token, DeleteAccount) || old(tokens)[token].subject != OfUser(id)
                      || id !in old(users) then Failure(InvalidToken)
                   else if refused then Failure(PolicyRefused)
                   else Success(())
      ensures r.Success? ==> id !in users && NoLinks(Model(), id) && NoAddressLinks(Model(), old(users)[id].email)
    {
      hide Inv, RetiredForUser;
      ghost var before := Model();
      SpentKeeps(config, before, token);
      var claimed := Claim(DeleteAccount, token);
      assert claimed.Some? ==> Model() == Spent(before, token);
      if claimed.None? || claimed.value.subject != OfUser(id) || id !in users {
        return Failure(InvalidToken);
      }
      if refused {
        return Failure(PolicyRefused);
      }
      KeepsId(config, before, id);
      var removed := DeleteUser(users[id]);
      return Success(());
    }
  }

  lemma SecretIsNew(c: Config, s: State, secret: string)
    requires Inv(c, s) && FreshSecret(s, secret)
    ensures secret !in s.tokens
  {
  }

  lemma DeletedLeavesNothing(c: Config, s: State, user: User)
    requires Idempotent(c) && Inv(c, s) && user in s.past.rows
    ensures var t := Deleted(c, s, user);
            && NoLinks(t, user.id)
            && (user.id in s.users ==> NoAddressLinks(t, s.users[user.id].email) && NoSessionsBut(t, user.id, None))
  {
    hide RetiredForUser;
    RetiredForUserExactly(s.tokens, user.id);
    forall k | k in RetiredForUser(s.tokens, user.id) ensures s.tokens[k].subject != OfUser(user.id) {
      assert TokenGood(c, s, s.tokens[k]);
    }
    if user.id in s.users {
      ResecuredLeavesNothing(c, s, Delete(user), user.id);
    }
  }

  lemma OneHolder(c: Config, s: State, email: string, u: nat)
    requires Inv(c, s) && Holds(s, email, u)
    ensures FindByEmail(s, email) == Some(s.users[u])
  {
    assert Taken(s, email);
    FoundIs(c, s, email);
  }

  lemma FoundIffTaken(s: State, email: string)
    ensures FindByEmail(s, email).Some? <==> Taken(s, email)
  {
  }

  lemma SameHolders(c: Config, s: State, t: State, email: string)
    requires Inv(c, s) && Inv(c, t) && s.users == t.users
    ensures FindByEmail(s, email) == FindByEmail(t, email)
  {
    if Taken(s, email) {
      var u :| u in s.users && Holds(s, email, u);
      assert Holds(t, email, u);
      OneHolder(c, s, email, u);
      OneHolder(c, t, email, u);
    } else {
      assert forall u :: u in t.users ==> !Holds(s, email, u);
    }
  }

  lemma HopUnfolds(c: Config, s: State, secret: string, kind: Kind, user: User, newEmail: string, mailedTo: string,
                   origin: Origin)
    ensures Hop(c, s, secret, kind, user, newEmail, mailedTo, origin)
         == Minted(c, s.(tokens := Retired(s.tokens, kind, OfUser(user.id))), secret, kind, OfUser(user.id), newEmail,
                   mailedTo, origin)
  {
  }

  lemma HopTokensNameUsers(c: Config, s: State, token: string)
    requires Inv(c, s)
    ensures token in s.tokens && !s.tokens[token].kind.EmailVerify? ==> s.tokens[token].subject.OfUser?
  {
    assert token in s.tokens ==> TokenGood(c, s, s.tokens[token]);
  }
}
