/**
  Anonymous visitors: arriving, being adopted, being merged away by a sign-in as
  somebody else, and being swept. A merge is a transaction whose statements
  interleave with other sign-ins; deleting the marker locks its row and picks the
  winner, and nothing is visible to others before the commit.
 */
module Anonymous {
  import opened Prelude

  datatype User = User(id: nat, email: string, emailVerified: bool)

  datatype Account = Account(userId: nat, issuer: string, providerId: string, passwordHash: Option<string>)

  datatype Session = Session(userId: nat, expiresAt: int)

  datatype Tables = Tables(users: map<nat, User>, markers: map<nat, int>, accounts: map<nat, Account>,
                           sessions: map<nat, Session>)

  const CREDENTIAL_ISSUER := "local:credential"
  const CREDENTIAL_PROVIDER := "credential"
  const ANONYMOUS_DOMAIN := "anonymous.invalid"

  function SyntheticEmail(id: string): string { "anon-" + id + "@" + ANONYMOUS_DOMAIN }

  predicate IsSyntheticEmail(normalize: string -> string, email: string) {
    var suffix, e := "@" + ANONYMOUS_DOMAIN, normalize(email);
    |e| >= |suffix| && e[|e| - |suffix|..] == suffix
  }

  /** Every address minted for a visitor is recognised as one, if normalizing leaves it alone. */
  lemma SyntheticIsRecognised(normalize: string -> string, id: string)
    requires normalize(SyntheticEmail(id)) == SyntheticEmail(id)
    ensures IsSyntheticEmail(normalize, SyntheticEmail(id))
  {
    var suffix := "@" + ANONYMOUS_DOMAIN;
    assert SyntheticEmail(id) == ("anon-" + id) + suffix;
  }

  // ---------------------------------------------------------------------------
  // Ways in
  // ---------------------------------------------------------------------------

  /** A provider identity, or a credential row that carries a hash. */
  predicate Opens(a: Account) {
    a.issuer != CREDENTIAL_ISSUER || a.providerId != CREDENTIAL_PROVIDER || a.passwordHash.Some?
  }

  predicate HasWay(t: Tables, u: nat) { exists a :: a in t.accounts && IsWay(t, a, u) }

  predicate IsWay(t: Tables, a: nat, u: nat) { a in t.accounts && t.accounts[a].userId == u && Opens(t.accounts[a]) }

  predicate Proven(normalize: string -> string, t: Tables, u: nat) {
    u in t.users && t.users[u].emailVerified && !IsSyntheticEmail(normalize, t.users[u].email)
  }

  /** What the merge's own statements can see: accounts and the address, not contributed authenticators. */
  predicate SettledInTables(normalize: string -> string, t: Tables, u: nat) { HasWay(t, u) || Proven(normalize, t, u) }

  /** `settled`: with the standalone authenticators `factors` counts. */
  predicate Settled(normalize: string -> string, t: Tables, factors: nat -> nat, u: nat) {
    factors(u) > 0 || SettledInTables(normalize, t, u)
  }

  /** A deletion and everything that cascades with the row. */
  function Without(t: Tables, u: nat): Tables {
    Tables(t.users - {u}, t.markers - {u},
           map a | a in t.accounts && t.accounts[a].userId != u :: t.accounts[a],
           map x | x in t.sessions && t.sessions[x].userId != u :: t.sessions[x])
  }

  /** The row, its marker, its accounts and its sessions go, and nobody else's. */
  lemma CascadeExactly(t: Tables, u: nat, k: nat)
    ensures var w := Without(t, u);
            && (k in w.users <==> k in t.users && k != u) && (k in w.markers <==> k in t.markers && k != u)
            && (k in w.accounts <==> k in t.accounts && t.accounts[k].userId != u)
            && (k in w.sessions <==> k in t.sessions && t.sessions[k].userId != u)
            && (k in w.users ==> w.users[k] == t.users[k]) && (k in w.markers ==> w.markers[k] == t.markers[k])
            && (k in w.accounts ==> w.accounts[k] == t.accounts[k])
            && (k in w.sessions ==> w.sessions[k] == t.sessions[k])
  {
  }

  /** The synthetic addresses are those of the one reserved domain. */
  lemma SyntheticExactly(normalize: string -> string, email: string)
    ensures IsSyntheticEmail(normalize, email) <==>
              exists local: string :: normalize(email) == local + "@anonymous.invalid"
  {
    var e := normalize(email);
    var suffix := "@" + ANONYMOUS_DOMAIN;
    assert suffix == "@anonymous.invalid";
    if IsSyntheticEmail(normalize, email) {
      assert e == e[..|e| - |suffix|] + suffix;
    }
    forall local: string | e == local + suffix ensures e[|e| - |suffix|..] == suffix {
    }
  }

  /**
    A person, to a merge: somebody with a provider's account or a password, or with a
    verified address that is not a synthetic one.
   */
  lemma SettledExactly(normalize: string -> string, t: Tables, factors: nat -> nat, u: nat)
    ensures var way := exists a :: a in t.accounts && t.accounts[a].userId == u
                                   && (t.accounts[a].issuer != "local:credential"
                                       || t.accounts[a].providerId != "credential"
                                       || t.accounts[a].passwordHash.Some?);
            var proven := u in t.users && t.users[u].emailVerified && !IsSyntheticEmail(normalize, t.users[u].email);
            && (SettledInTables(normalize, t, u) <==> way || proven)
            && (Settled(normalize, t, factors, u) <==> factors(u) > 0 || way || proven)
  {
    if a :| a in t.accounts && t.accounts[a].userId == u
            && (t.accounts[a].issuer != "local:credential" || t.accounts[a].providerId != "credential"
                || t.accounts[a].passwordHash.Some?)
    {
      assert IsWay(t, a, u);
    }
  }

  lemma OthersUnaffected(normalize: string -> string, t: Tables, factors: nat -> nat, u: nat, v: nat)
    requires u != v
    ensures Settled(normalize, Without(t, u), factors, v) <==> Settled(normalize, t, factors, v)
  {
    hide Opens, IsSyntheticEmail;
    var w := Without(t, u);
    if HasWay(t, v) {
      var a :| a in t.accounts && IsWay(t, a, v);
      assert IsWay(w, a, v);
    }
    if HasWay(w, v) {
      var a :| a in w.accounts && IsWay(w, a, v);
      assert IsWay(t, a, v);
    }
  }

  // ---------------------------------------------------------------------------
  // Merging: one sign-in as a fibre
  // ---------------------------------------------------------------------------

  datatype Ending = NothingToMerge | KeptAsPerson | MergeRefused | Merged

  datatype SignIn =
    | Arriving(visitor: nat, target: nat)
    | Marked(visitor: nat, target: nat)
    | Claimed(visitor: nat, target: nat)
    | CountedWays(visitor: nat, target: nat, ways: bool)
    | Deleting(visitor: nat, target: nat)
    | Over(visitor: nat, target: nat, ending: Ending)

  /**
    `locks`: whose transaction has deleted a visitor's marker and not ended. `arrived`: every id
    ever used. `merges`: committed `onMerge` calls.
   */
  datatype State = State(tables: Tables, locks: map<nat, nat>, calls: map<nat, SignIn>, arrived: set<nat>,
                         merges: seq<(nat, nat)>)

  datatype Step =
    | Begin(f: nat, visitor: nat, target: nat)
    | Find(f: nat)
    | Clear(f: nat)
    | ReadWays(f: nat)
    | ReadAddress(f: nat, refused: bool)
    | Commit(f: nat)
    | Arrive(user: User, at: int)
    | AddAccount(id: nat, account: Account)
    | SetAddress(u: nat, email: string, verified: bool)
    | Adopt(u: nat)
    | Delete(u: nat)

  predicate Inside(call: SignIn) { call.Claimed? || call.CountedWays? || call.Deleting? }

  function Ended(s: State, f: nat, ending: Ending): State
    requires f in s.calls
  {
    var call := s.calls[f];
    s.(calls := s.calls[f := Over(call.visitor, call.target, ending)], locks := s.locks - {call.visitor})
  }

  function MarkerGone(t: Tables, u: nat): Tables { t.(markers := t.markers - {u}) }

  /** The reads under the lock, and `onMerge`, which may refuse. */
  function AfterReads(normalize: string -> string, s: State, f: nat, refused: bool): State
    requires f in s.calls && s.calls[f].CountedWays?
  {
    var call := s.calls[f];
    if call.ways || Proven(normalize, s.tables, call.visitor) then
      Ended(s.(tables := MarkerGone(s.tables, call.visitor)), f, KeptAsPerson)
    else if refused then Ended(s, f, MergeRefused)
    else s.(calls := s.calls[f := Deleting(call.visitor, call.target)])
  }

  function Apply(normalize: string -> string, s: State, step: Step): State {
    match step
    case Begin(f, visitor, target) => if f in s.calls then s else s.(calls := s.calls[f := Arriving(visitor, target)])
    case Find(f) =>
      if !(f in s.calls && s.calls[f].Arriving?) then s
      else
        var call := s.calls[f];
        if call.visitor == call.target || call.visitor !in s.tables.markers then
          s.(calls := s.calls[f := Over(call.visitor, call.target, NothingToMerge)])
        else s.(calls := s.calls[f := Marked(call.visitor, call.target)])
    case Clear(f) =>
      if !(f in s.calls && s.calls[f].Marked?) || s.calls[f].visitor in s.locks then s
      else
        var call := s.calls[f];
        if call.visitor !in s.tables.markers
        then s.(calls := s.calls[f := Over(call.visitor, call.target, NothingToMerge)])
        else s.(calls := s.calls[f := Claimed(call.visitor, call.target)], locks := s.locks[call.visitor := f])
    case ReadWays(f) =>
      if !(f in s.calls && s.calls[f].Claimed?) then s
      else s.(calls := s.calls[f := CountedWays(s.calls[f].visitor, s.calls[f].target,
                                                HasWay(s.tables, s.calls[f].visitor))])
    case ReadAddress(f, refused) =>
      if !(f in s.calls && s.calls[f].CountedWays?) then s else AfterReads(normalize, s, f, refused)
    case Commit(f) =>
      if !(f in s.calls && s.calls[f].Deleting?) then s
      else
        var call := s.calls[f];
        Ended(s.(tables := Without(s.tables, call.visitor), merges := s.merges + [(call.visitor, call.target)]), f,
              Merged)
    case Arrive(user, at) =>
      if user.id in s.arrived then s
      else s.(tables := s.tables.(users := s.tables.users[user.id := user], markers := s.tables.markers[user.id := at]),
              arrived := s.arrived + {user.id})
    case AddAccount(id, account) =>
      if id in s.tables.accounts || account.userId !in s.tables.users then s
      else s.(tables := s.tables.(accounts := s.tables.accounts[id := account]))
    case SetAddress(u, email, verified) =>
      if u !in s.tables.users then s
      else
        var user := s.tables.users[u].(email := email, emailVerified := verified);
        s.(tables := s.tables.(users := s.tables.users[u := user]))
    case Adopt(u) => if u in s.locks then s else s.(tables := MarkerGone(s.tables, u))
    case Delete(u) => if u in s.locks then s else s.(tables := Without(s.tables, u))
  }

  function Run(normalize: string -> string, s: State, steps: seq<Step>): State
    decreases |steps|
  {
    if steps == [] then s else Run(normalize, Apply(normalize, s, steps[0]), steps[1..])
  }

  function Initial(): State { State(Tables(map[], map[], map[], map[]), map[], map[], {}, []) }

  // ---------------------------------------------------------------------------
  // The invariant
  // ---------------------------------------------------------------------------

  predicate HoldsLock(s: State, f: nat)
    requires f in s.calls
  {
    && s.calls[f].visitor in s.locks && s.locks[s.calls[f].visitor] == f
    && s.calls[f].visitor in s.tables.markers && s.calls[f].visitor in s.tables.users
    && s.calls[f].visitor != s.calls[f].target
  }

  ghost predicate MergesGood(s: State) {
    && (forall i :: 0 <= i < |s.merges| ==> s.merges[i].0 in s.arrived && s.merges[i].0 !in s.tables.users)
    && (forall i, j :: 0 <= i < j < |s.merges| ==> s.merges[i].0 != s.merges[j].0)
  }

  predicate LockedBy(s: State, v: nat)
    requires v in s.locks
  {
    s.locks[v] in s.calls && Inside(s.calls[s.locks[v]]) && s.calls[s.locks[v]].visitor == v
  }

  ghost predicate Inv(s: State) {
    && s.tables.users.Keys <= s.arrived && s.tables.markers.Keys <= s.tables.users.Keys
    && (forall f :: f in s.calls && Inside(s.calls[f]) ==> HoldsLock(s, f))
    && (forall v :: v in s.locks ==> LockedBy(s, v))
    && (forall f :: f in s.calls && s.calls[f].Marked? ==> s.calls[f].visitor != s.calls[f].target)
    && MergesGood(s)
  }

  /** What a merge does keeps the invariant. */
  lemma KeepsOnMerge(normalize: string -> string, s: State, step: Step)
    requires Inv(s) && (step.Find? || step.Clear? || step.ReadWays? || step.ReadAddress? || step.Commit?)
    ensures Inv(Apply(normalize, s, step))
  {
    hide HasWay, Proven, MergesGood, LockedBy;
    var t := Apply(normalize, s, step);
    forall f | f in t.calls && Inside(t.calls[f]) ensures HoldsLock(t, f) {
      assert f in s.calls && Inside(s.calls[f]) ==> HoldsLock(s, f);
      assert step.f in s.calls && Inside(s.calls[step.f]) ==> HoldsLock(s, step.f);
    }
    LocksKept(normalize, s, step);
    MergesKept(normalize, s, step);
  }

  lemma LocksKept(normalize: string -> string, s: State, step: Step)
    requires Inv(s)
    ensures forall v :: v in Apply(normalize, s, step).locks ==> LockedBy(Apply(normalize, s, step), v)
  {
    hide HasWay, Proven, MergesGood, Without, MarkerGone;
    var t := Apply(normalize, s, step);
    forall v | v in t.locks ensures LockedBy(t, v) {
      assert v in s.locks ==> LockedBy(s, v);
    }
  }

  lemma MergesKept(normalize: string -> string, s: State, step: Step)
    requires Inv(s)
    ensures MergesGood(Apply(normalize, s, step))
  {
    hide HasWay, Proven;
    if step.Commit? && step.f in s.calls && s.calls[step.f].Deleting? {
      assert HoldsLock(s, step.f);
    }
  }

  lemma KeepsInv(normalize: string -> string, s: State, step: Step)
    requires Inv(s)
    ensures Inv(Apply(normalize, s, step))
  {
    hide HasWay, Proven, MergesGood, LockedBy;
    if step.Find? || step.Clear? || step.ReadWays? || step.ReadAddress? || step.Commit? {
      KeepsOnMerge(normalize, s, step);
    } else {
      var t := Apply(normalize, s, step);
      forall f | f in t.calls && Inside(t.calls[f]) ensures HoldsLock(t, f) {
        assert HoldsLock(s, f);
      }
      LocksKept(normalize, s, step);
      MergesKept(normalize, s, step);
    }
  }

  lemma {:induction false} RunKeepsInv(normalize: string -> string, s: State, steps: seq<Step>)
    requires Inv(s)
    ensures Inv(Run(normalize, s, steps))
    decreases |steps|
  {
    hide Apply, Inv;
    if steps != [] {
      KeepsInv(normalize, s, steps[0]);
      RunKeepsInv(normalize, Apply(normalize, s, steps[0]), steps[1..]);
    }
  }

  // ---------------------------------------------------------------------------
  // Over every interleaving
  // ---------------------------------------------------------------------------

  /** Accounts and sessions go only with their user, and otherwise stay as they were. */
  lemma NothingGoesAlone(normalize: string -> string, s: State, step: Step, k: nat)
    ensures var t := Apply(normalize, s, step).tables;
            && (k in s.tables.sessions ==>
                if k in t.sessions then t.sessions[k] == s.tables.sessions[k]
                else s.tables.sessions[k].userId !in t.users)
            && (k in s.tables.accounts ==>
                if k in t.accounts then t.accounts[k] == s.tables.accounts[k]
                else s.tables.accounts[k].userId !in t.users)
  {
  }

  /** A visitor is merged at most once, into one account, and is gone from then on. */
  lemma MergedAtMostOnce(normalize: string -> string, steps: seq<Step>, more: seq<Step>, i: nat, j: nat)
    requires i < |Run(normalize, Initial(), steps).merges|
    ensures var s := Run(normalize, Initial(), steps);
            var t := Run(normalize, s, more);
            && s.merges <= t.merges && s.merges[i].0 !in t.tables.users
            && (j < |t.merges| && t.merges[j].0 == s.merges[i].0 ==> j == i)
  {
    var s := Run(normalize, Initial(), steps);
    RunKeepsInv(normalize, Initial(), steps);
    RunKeepsInv(normalize, s, more);
    MergesGrow(normalize, s, more);
    assert Run(normalize, s, more).merges[i] == s.merges[i];
  }

  lemma {:induction false} MergesGrow(normalize: string -> string, s: State, steps: seq<Step>)
    ensures s.merges <= Run(normalize, s, steps).merges
    decreases |steps|
  {
    if steps != [] {
      assert s.merges <= Apply(normalize, s, steps[0]).merges;
      hide Apply;
      MergesGrow(normalize, Apply(normalize, s, steps[0]), steps[1..]);
    }
  }

  /**
    A refusal restores everything: until it ends, a merge has shown the tables nothing, and its
    visitor is marked, present and unlocked after it.
   */
  lemma RefusalRestores(normalize: string -> string, steps: seq<Step>, f: nat)
    ensures var s := Run(normalize, Initial(), steps);
            && Apply(normalize, s, Clear(f)).tables == s.tables && Apply(normalize, s, ReadWays(f)).tables == s.tables
            && (var t := Apply(normalize, s, ReadAddress(f, true));
                f in s.calls && s.calls[f].CountedWays? && t.calls[f].Over? && t.calls[f].ending.MergeRefused? ==>
                  && t.tables == s.tables && t.merges == s.merges
                  && s.calls[f].visitor in t.tables.markers && s.calls[f].visitor in t.tables.users
                  && s.calls[f].visitor !in t.locks)
  {
    hide HasWay, Proven;
    RunKeepsInv(normalize, Initial(), steps);
    var s := Run(normalize, Initial(), steps);
    assert f in s.calls && Inside(s.calls[f]) ==> HoldsLock(s, f);
  }

  /** What ending `f`'s merge at once would leave: the reads still owed, an `onMerge` that agrees, the deletion. */
  function Completed(normalize: string -> string, s: State, f: nat): Tables {
    Apply(normalize, Apply(normalize, s, ReadAddress(f, false)), Commit(f)).tables
  }

  ghost predicate LosesAPerson(normalize: string -> string, s: State, f: nat) {
    exists v :: v in s.tables.users && SettledInTables(normalize, s.tables, v) && v !in Completed(normalize, s, f).users
  }

  ghost predicate NobodyAtRisk(normalize: string -> string, s: State) { forall f :: !LosesAPerson(normalize, s, f) }

  /** A merge about to delete somebody its reads did not show, and its next read will not. */
  predicate Blind(normalize: string -> string, t: Tables, call: SignIn) {
    match call
    case Deleting(v, _) => SettledInTables(normalize, t, v)
    case CountedWays(v, _, ways) => !ways && HasWay(t, v) && !Proven(normalize, t, v)
    case _ => false
  }

  lemma BlindExactly(normalize: string -> string, s: State, f: nat)
    requires Inv(s)
    ensures LosesAPerson(normalize, s, f) <==> f in s.calls && Blind(normalize, s.tables, s.calls[f])
  {
    hide HasWay, Proven, MergesGood;
    if f in s.calls && Inside(s.calls[f]) {
      assert HoldsLock(s, f);
      var v := s.calls[f].visitor;
      if Blind(normalize, s.tables, s.calls[f]) {
        assert v in s.tables.users && SettledInTables(normalize, s.tables, v) && v !in Completed(normalize, s, f).users;
      }
    }
  }

  /**
    What a merge that has counted the visitor's ways in will not look at again, and what it has
    decided on altogether.
   */
  predicate TooLate(normalize: string -> string, s: State, step: Step) {
    match step
    case AddAccount(id, account) =>
      var v := account.userId;
      && id !in s.tables.accounts && v in s.tables.users && Opens(account)
      && v in s.locks && s.locks[v] in s.calls
      && var call := s.calls[s.locks[v]];
         call.Deleting? || (call.CountedWays? && !call.ways && !Proven(normalize, s.tables, v))
    case SetAddress(v, email, verified) =>
      var proves := verified && !IsSyntheticEmail(normalize, email);
      && v in s.tables.users && v in s.locks && s.locks[v] in s.calls
      && var call := s.calls[s.locks[v]];
         (call.Deleting? && proves) || (call.CountedWays? && !call.ways && HasWay(s.tables, v) && !proves)
    case _ => false
  }

  /** One step puts somebody at risk exactly when it is too late. */
  lemma RiskExactly(normalize: string -> string, s: State, step: Step)
    requires Inv(s) && NobodyAtRisk(normalize, s)
    ensures NobodyAtRisk(normalize, Apply(normalize, s, step)) <==> !TooLate(normalize, s, step)
  {
    hide LosesAPerson, Inv, Blind, TooLate;
    KeepsInv(normalize, s, step);
    var t := Apply(normalize, s, step);
    forall f ensures LosesAPerson(normalize, s, f) <==> f in s.calls && Blind(normalize, s.tables, s.calls[f]) {
      BlindExactly(normalize, s, f);
    }
    forall f ensures LosesAPerson(normalize, t, f) <==> f in t.calls && Blind(normalize, t.tables, t.calls[f]) {
      BlindExactly(normalize, t, f);
    }
    hide Apply;
    if TooLate(normalize, s, step) {
      var f := BlindedBy(normalize, s, step);
      assert LosesAPerson(normalize, t, f);
    } else {
      forall f | f in t.calls ensures !Blind(normalize, t.tables, t.calls[f]) {
        StillSighted(normalize, s, step, f);
      }
    }
  }

  /** The merge a late step blinds. */
  lemma BlindedBy(normalize: string -> string, s: State, step: Step) returns (f: nat)
    requires Inv(s) && TooLate(normalize, s, step)
    ensures var t := Apply(normalize, s, step); f in t.calls && Blind(normalize, t.tables, t.calls[f])
  {
    hide IsSyntheticEmail, MergesGood;
    var v := if step.AddAccount? then step.account.userId else step.u;
    f := s.locks[v];
    var t := Apply(normalize, s, step);
    if step.AddAccount? {
      assert IsWay(t.tables, step.id, v);
    } else {
      SameWays(s.tables, t.tables, v);
    }
  }

  lemma SameWays(t: Tables, u: Tables, v: nat)
    requires forall a :: IsWay(t, a, v) <==> IsWay(u, a, v)
    ensures HasWay(t, v) == HasWay(u, v)
  {
    hide IsWay;
    forall a | IsWay(t, a, v) ensures a in t.accounts && a in u.accounts {
      InAccounts(t, a, v);
      InAccounts(u, a, v);
    }
    forall a | IsWay(u, a, v) ensures a in t.accounts && a in u.accounts {
      InAccounts(t, a, v);
      InAccounts(u, a, v);
    }
  }

  lemma InAccounts(t: Tables, a: nat, v: nat)
    requires IsWay(t, a, v)
    ensures a in t.accounts
  {
  }

  /** A step that is not too late blinds nobody. */
  lemma StillSighted(normalize: string -> string, s: State, step: Step, f: nat)
    requires Inv(s) && !TooLate(normalize, s, step) && f in Apply(normalize, s, step).calls
    requires f in s.calls ==> !Blind(normalize, s.tables, s.calls[f])
    ensures !Blind(normalize, Apply(normalize, s, step).tables, Apply(normalize, s, step).calls[f])
  {
    hide IsSyntheticEmail, MergesGood, HasWay, Opens;
    var t := Apply(normalize, s, step);
    if f in s.calls && Inside(s.calls[f]) && Inside(t.calls[f]) {
      assert HoldsLock(s, f);
      KeepsInv(normalize, s, step);
      assert HoldsLock(t, f);
      var v := s.calls[f].visitor;
      if step.AddAccount? && step.account.userId == v {
        OneMoreAccount(normalize, s, step, v);
      } else {
        OthersAccounts(normalize, s, step, v);
        SameWays(s.tables, t.tables, v);
      }
    }
  }

  lemma OneMoreAccount(normalize: string -> string, s: State, step: Step, v: nat)
    requires step.AddAccount? && step.account.userId == v
    ensures var t := Apply(normalize, s, step).tables;
            && t.users == s.tables.users
            && (HasWay(t, v) <==> HasWay(s.tables, v) || (t != s.tables && Opens(step.account)))
  {
    hide Opens;
    var t := Apply(normalize, s, step).tables;
    if HasWay(s.tables, v) {
      var a :| a in s.tables.accounts && IsWay(s.tables, a, v);
      assert IsWay(t, a, v);
    }
    if t != s.tables && Opens(step.account) {
      assert IsWay(t, step.id, v);
    }
    if HasWay(t, v) {
      var a :| a in t.accounts && IsWay(t, a, v);
      assert a != step.id || t == s.tables ==> IsWay(s.tables, a, v);
    }
  }

  /** A step that leaves a locked visitor there and adds none of their accounts leaves their ways in alone. */
  lemma OthersAccounts(normalize: string -> string, s: State, step: Step, v: nat)
    requires Inv(s) && v in s.locks && v in s.tables.users && !(step.AddAccount? && step.account.userId == v)
    requires v in Apply(normalize, s, step).tables.users
    ensures !(step.SetAddress? && step.u == v) ==> Apply(normalize, s, step).tables.users[v] == s.tables.users[v]
    ensures forall a :: IsWay(s.tables, a, v) <==> IsWay(Apply(normalize, s, step).tables, a, v)
  {
    hide HasWay, Proven, MergesGood, Opens;
  }

  predicate InTime(normalize: string -> string, s: State, steps: seq<Step>)
    decreases |steps|
  {
    steps != [] ==> !TooLate(normalize, s, steps[0]) && InTime(normalize, Apply(normalize, s, steps[0]), steps[1..])
  }

  /** At no point of a run is anybody at risk. */
  ghost predicate NeverAtRisk(normalize: string -> string, s: State, steps: seq<Step>)
    decreases |steps|
  {
    && NobodyAtRisk(normalize, s)
    && (steps != [] ==> NeverAtRisk(normalize, Apply(normalize, s, steps[0]), steps[1..]))
  }

  lemma {:induction false} RiskAlong(normalize: string -> string, s: State, steps: seq<Step>)
    requires Inv(s) && NobodyAtRisk(normalize, s)
    ensures NeverAtRisk(normalize, s, steps) <==> InTime(normalize, s, steps)
    decreases |steps|
  {
    hide Inv, NobodyAtRisk, TooLate;
    if steps != [] {
      RiskExactly(normalize, s, steps[0]);
      KeepsInv(normalize, s, steps[0]);
      hide Apply;
      if !TooLate(normalize, s, steps[0]) {
        RiskAlong(normalize, Apply(normalize, s, steps[0]), steps[1..]);
      } else {
        NotFromTheStart(normalize, Apply(normalize, s, steps[0]), steps[1..]);
      }
    }
  }

  lemma NotFromTheStart(normalize: string -> string, s: State, steps: seq<Step>)
    requires !NobodyAtRisk(normalize, s)
    ensures !NeverAtRisk(normalize, s, steps)
  {
  }

  /**
    Throughout a run no merge is ever in a position to delete somebody who has a
    way in, exactly when no opening account and no proof of an address arrives too
    late for the merge to see.
   */
  lemma PersonsAreKept(normalize: string -> string, steps: seq<Step>, f: nat, v: nat)
    ensures NeverAtRisk(normalize, Initial(), steps) <==> InTime(normalize, Initial(), steps)
    ensures var s := Run(normalize, Initial(), steps);
            var way := exists a :: a in s.tables.accounts && s.tables.accounts[a].userId == v
                                   && (s.tables.accounts[a].issuer != "local:credential"
                                       || s.tables.accounts[a].providerId != "credential"
                                       || s.tables.accounts[a].passwordHash.Some?);
            InTime(normalize, Initial(), steps) && v in s.tables.users
            && (way || (s.tables.users[v].emailVerified && !IsSyntheticEmail(normalize, s.tables.users[v].email))) ==>
              v in Apply(normalize, s, Commit(f)).tables.users
  {
    RiskAlong(normalize, Initial(), steps);
    SettledExactly(normalize, Run(normalize, Initial(), steps).tables, _ => 0, v);
    if InTime(normalize, Initial(), steps) {
      SafeAtTheEnd(normalize, Initial(), steps);
      var s := Run(normalize, Initial(), steps);
      hide SettledInTables;
      assert !LosesAPerson(normalize, s, f);
      assert f in s.calls && s.calls[f].Deleting? ==>
               Completed(normalize, s, f) == Apply(normalize, s, Commit(f)).tables;
    }
  }

  lemma {:induction false} SafeAtTheEnd(normalize: string -> string, s: State, steps: seq<Step>)
    requires NeverAtRisk(normalize, s, steps)
    ensures NobodyAtRisk(normalize, Run(normalize, s, steps))
    decreases |steps|
  {
    hide Apply, NobodyAtRisk;
    if steps != [] {
      SafeAtTheEnd(normalize, Apply(normalize, s, steps[0]), steps[1..]);
    }
  }

  /** The condition is needed: an account linked between the reads and the deletion goes with its owner. */
  lemma LateCredentialIsLost(normalize: string -> string)
    ensures exists steps, f, v ::
              && v in Run(normalize, Initial(), steps).tables.users
              && SettledInTables(normalize, Run(normalize, Initial(), steps).tables, v)
              && v !in Apply(normalize, Run(normalize, Initial(), steps), Commit(f)).tables.users
  {
    var visitor, account := User(0, "", false), Account(0, "i", "p", None);
    var s := Apply(normalize, Initial(), Arrive(visitor, 0));
    assert !HasWay(s.tables, 0) && !Proven(normalize, s.tables, 0);
    AboutToDelete(normalize, s, 0, 0, 1);
    var reading := [Begin(0, 0, 1), Find(0), Clear(0), ReadWays(0), ReadAddress(0, false)];
    var ready := Run(normalize, s, reading);
    assert "i"[0] != CREDENTIAL_ISSUER[0];
    LinkedTooLate(normalize, ready, account);
    var last := Apply(normalize, ready, AddAccount(0, account));
    hide Apply, Run, SettledInTables;
    RunSplit(normalize, Initial(), [Arrive(visitor, 0)], reading);
    RunSplit(normalize, Initial(), [Arrive(visitor, 0)] + reading, [AddAccount(0, account)]);
    RunsThrough(normalize, [AddAccount(0, account)], [ready, last]);
    RunsThrough(normalize, [Arrive(visitor, 0)], [Initial(), s]);
    assert last == Run(normalize, Initial(), [Arrive(visitor, 0)] + reading + [AddAccount(0, account)]);
  }

  lemma LinkedTooLate(normalize: string -> string, s: State, account: Account)
    requires 0 in s.calls && s.calls[0] == Deleting(0, 1) && 0 in s.tables.users && s.tables.accounts == map[]
    requires account.userId == 0 && Opens(account)
    ensures var last := Apply(normalize, s, AddAccount(0, account));
            && 0 in last.tables.users && SettledInTables(normalize, last.tables, 0)
            && 0 !in Apply(normalize, last, Commit(0)).tables.users
  {
    hide Proven, Opens;
    assert IsWay(Apply(normalize, s, AddAccount(0, account)).tables, 0, 0);
  }

  lemma AboutToDelete(normalize: string -> string, s: State, f: nat, visitor: nat, target: nat)
    requires f !in s.calls && visitor !in s.locks && visitor in s.tables.markers && visitor != target
    requires !HasWay(s.tables, visitor) && !Proven(normalize, s.tables, visitor)
    ensures var end :=
              Run(normalize, s, [Begin(f, visitor, target), Find(f), Clear(f), ReadWays(f), ReadAddress(f, false)]);
            end.tables == s.tables && f in end.calls && end.calls[f] == Deleting(visitor, target)
  {
    hide HasWay, Proven;
    var steps := [Begin(f, visitor, target), Find(f), Clear(f), ReadWays(f), ReadAddress(f, false)];
    var s1 := Apply(normalize, s, steps[0]);
    var s2 := Apply(normalize, s1, steps[1]);
    var s3 := Apply(normalize, s2, steps[2]);
    assert s3.tables == s.tables && s3.calls[f] == Claimed(visitor, target);
    var s4 := Apply(normalize, s3, steps[3]);
    var s5 := Apply(normalize, s4, steps[4]);
    assert s5.tables == s.tables && s5.calls[f] == Deleting(visitor, target);
    hide Apply;
    RunsThrough(normalize, steps, [s, s1, s2, s3, s4, s5]);
  }

  lemma {:induction false} RunSplit(normalize: string -> string, s: State, a: seq<Step>, b: seq<Step>)
    ensures Run(normalize, s, a + b) == Run(normalize, Run(normalize, s, a), b)
    decreases |a|
  {
    hide Apply;
    if a == [] {
      assert a + b == b;
    } else {
      assert (a + b)[1..] == a[1..] + b;
      RunSplit(normalize, Apply(normalize, s, a[0]), a[1..], b);
    }
  }

  lemma {:induction false} RunsThrough(normalize: string -> string, steps: seq<Step>, states: seq<State>)
    requires |states| == |steps| + 1
    requires forall i :: 0 <= i < |steps| ==> states[i + 1] == Apply(normalize, states[i], steps[i])
    ensures Run(normalize, states[0], steps) == states[|steps|]
    decreases |steps|
  {
    hide Apply;
    if steps != [] {
      RunsThrough(normalize, steps[1..], states[1..]);
    }
  }

  /**
    Undisturbed: a person keeps everything but the marker, a refusal changes nothing, and
    otherwise the visitor is merged away.
   */
  lemma MergeAlone(normalize: string -> string, s: State, f: nat, visitor: nat, target: nat, refused: bool)
    requires Inv(s) && f !in s.calls && visitor !in s.locks
    ensures var steps := [Begin(f, visitor, target), Find(f), Clear(f), ReadWays(f), ReadAddress(f, refused),
                          Commit(f)];
            var end := Run(normalize, s, steps);
            && f in end.calls && end.calls[f].Over?
            && end.calls == s.calls[f := Over(visitor, target, end.calls[f].ending)]
            && match end.calls[f].ending
               case NothingToMerge =>
                 (visitor == target || visitor !in s.tables.markers) && end.tables == s.tables && end.merges == s.merges
               case KeptAsPerson =>
                 && SettledInTables(normalize, s.tables, visitor)
                 && end.tables == s.tables.(markers := s.tables.markers - {visitor}) && end.merges == s.merges
               case MergeRefused =>
                 && refused && !SettledInTables(normalize, s.tables, visitor)
                 && end.tables == s.tables && end.merges == s.merges
               case Merged =>
                 && visitor != target && visitor in s.tables.markers
                 && !refused && !SettledInTables(normalize, s.tables, visitor)
                 && end.tables == Without(s.tables, visitor) && end.merges == s.merges + [(visitor, target)]
  {
    hide HasWay, Proven, Without, Apply, Inv;
    var steps := [Begin(f, visitor, target), Find(f), Clear(f), ReadWays(f), ReadAddress(f, refused), Commit(f)];
    var s1 := Apply(normalize, s, steps[0]);
    var s2 := Apply(normalize, s1, steps[1]);
    var s3 := Apply(normalize, s2, steps[2]);
    var s4 := Apply(normalize, s3, steps[3]);
    var s5 := Apply(normalize, s4, steps[4]);
    var end := Apply(normalize, s5, steps[5]);
    FindsThenClears(normalize, s, f, visitor, target);
    ReadsThenCommits(normalize, s3, f, refused);
    RunsThrough(normalize, steps, [s, s1, s2, s3, s4, s5, end]);
    assert end.calls == s.calls[f := end.calls[f]];
  }

  lemma FindsThenClears(normalize: string -> string, s: State, f: nat, visitor: nat, target: nat)
    requires f !in s.calls && visitor !in s.locks
    ensures var end :=
              Apply(normalize, Apply(normalize, Apply(normalize, s, Begin(f, visitor, target)), Find(f)), Clear(f));
            && end.tables == s.tables && end.merges == s.merges
            && end.calls == s.calls[f := if visitor == target || visitor !in s.tables.markers
                                         then Over(visitor, target, NothingToMerge) else Claimed(visitor, target)]
  {
  }

  lemma ReadsThenCommits(normalize: string -> string, s: State, f: nat, refused: bool)
    requires f in s.calls && (s.calls[f].Claimed? || s.calls[f].Over?)
    ensures var end :=
              Apply(normalize, Apply(normalize, Apply(normalize, s, ReadWays(f)), ReadAddress(f, refused)), Commit(f));
            var v := s.calls[f].visitor;
            var u := s.calls[f].target;
            if s.calls[f].Over? then end.tables == s.tables && end.merges == s.merges && end.calls == s.calls
            else if SettledInTables(normalize, s.tables, v) then
              && end.tables == MarkerGone(s.tables, v) && end.merges == s.merges
              && end.calls == s.calls[f := Over(v, u, KeptAsPerson)]
            else if refused then
              && end.tables == s.tables && end.merges == s.merges && end.calls == s.calls[f := Over(v, u, MergeRefused)]
            else
              && end.tables == Without(s.tables, v) && end.merges == s.merges + [(v, u)]
              && end.calls == s.calls[f := Over(v, u, Merged)]
  {
    hide HasWay, Proven, Without;
  }

  // ---------------------------------------------------------------------------
  // The service, call by call
  // ---------------------------------------------------------------------------

  datatype AdoptOutcome = Adopted | NotAnonymous | NoCredential | AddressTaken

  predicate Taken(t: Tables, email: string, except: nat) {
    exists u :: u in t.users && u != except && t.users[u].email == email
  }

  predicate Idle(t: Tables, u: nat, before: int, now: int) {
    u in t.markers && t.markers[u] <= before
    && forall x :: x in t.sessions && t.sessions[x].userId == u ==> t.sessions[x].expiresAt <= now
  }

  /**
    What the store's one statement answers: idle visitors, longest first, at most `limit` of
    them, and all if they fit.
   */
  ghost predicate ListsIdle(t: Tables, before: int, now: int, limit: nat, idle: seq<nat>) {
    && |idle| <= limit
    && (forall i, j :: 0 <= i < j < |idle| ==> idle[i] != idle[j])
    && (forall i :: 0 <= i < |idle| ==> Idle(t, idle[i], before, now))
    && (forall i, j :: 0 <= i < j < |idle| ==> t.markers[idle[i]] <= t.markers[idle[j]])
    && (|idle| < limit ==> forall u :: Idle(t, u, before, now) ==> u in idle)
  }

  /**
    The row a visitor starts with: unverified, at an address minted from its id, unless a hook
    rewrites or refuses it.
   */
  function Visitor(normalize: string -> string, before: Option<User -> Option<User>>, id: nat, show: string)
      : Option<User> {
    var candidate := User(id, SyntheticEmail(show), false);
    match before
    case None => Some(candidate)
    case Some(hook) =>
      match hook(candidate)
      case None => None
      case Some(row) => Some(row.(id := id, email := normalize(row.email)))
  }

  /** Nobody a hook left alone arrives settled: until they gain a way in, the sweep and a merge may have them. */
  lemma VisitorsArriveUnsettled(normalize: string -> string, t: Tables, factors: nat -> nat, id: nat, show: string,
                                now: int)
    requires factors(id) == 0 && forall a :: a in t.accounts ==> t.accounts[a].userId != id
    ensures var user := Visitor(normalize, None, id, show).value;
            !Settled(normalize, t.(users := t.users[id := user], markers := t.markers[id := now]), factors, id)
  {
    hide IsSyntheticEmail;
  }

  class AnonymousService {
    const normalize: string -> string
    const beforeUserCreate: Option<User -> Option<User>>
    const factors: nat -> nat
    var tables: Tables

    constructor (normalize: string -> string, beforeUserCreate: Option<User -> Option<User>>, factors: nat -> nat,
                 tables: Tables)
      ensures this.normalize == normalize && this.beforeUserCreate == beforeUserCreate
      ensures this.factors == factors && this.tables == tables
    {
      this.normalize := normalize;
      this.beforeUserCreate := beforeUserCreate;
      this.factors := factors;
      this.tables := tables;
    }

    /**
      Row, marker and session in one transaction. `refused`: the sign-in pipeline
      refused or challenged the visitor, or a hook did after the row was written.
     */
    method Arrive(id: nat, show: string, session: nat, expiresAt: int, now: int, refused: bool)
        returns (created: Option<User>)
      requires id !in tables.users && session !in tables.sessions
      modifies this
      ensures var visitor := Visitor(normalize, beforeUserCreate, id, show);
              && (created.None? <==>
                  || refused || visitor.None?
                  || exists u :: u in old(tables).users && u != id && old(tables).users[u].email == visitor.value.email)
              && (created.Some? ==> created == visitor)
      ensures created.Some? ==>
                var candidate := User(id, "anon-" + show + "@anonymous.invalid", false);
                if beforeUserCreate.None? then created.value == candidate
                else
                  var answer := beforeUserCreate.value(candidate);
                  && answer.Some?
                  && created.value == User(id, normalize(answer.value.email), answer.value.emailVerified)
      ensures created.None? ==> tables == old(tables)
      ensures created.Some? ==>
                tables == Tables(old(tables).users[id := created.value], old(tables).markers[id := now],
                                 old(tables).accounts,
                                 old(tables).sessions[session := Session(id, expiresAt)])
    {
      var user := User(id, SyntheticEmail(show), false);
      if beforeUserCreate.Some? {
        var answer := beforeUserCreate.value(user);
        if answer.None? {
          return None;
        }
        user := answer.value.(id := id, email := normalize(answer.value.email));
      }
      if exists u :: u in tables.users && u != id && tables.users[u].email == user.email {
        return None;
      }
      if refused {
        return None;
      }
      tables := Tables(tables.users[id := user], tables.markers[id := now], tables.accounts,
                       tables.sessions[session := Session(id, expiresAt)]);
      return Some(user);
    }

    /** Clears the marker, once the account really holds a way in or is handed a proven address. */
    method Adopt(userId: nat, address: Option<string>, verified: bool) returns (outcome: AdoptOutcome)
      modifies this
      ensures outcome.NotAnonymous? <==> userId !in old(tables).markers
      ensures outcome.NoCredential? <==>
                userId in old(tables).markers && address.None? && !Settled(normalize, old(tables), factors, userId)
      ensures outcome.AddressTaken? <==>
                && userId in old(tables).markers && address.Some?
                && exists u :: u in old(tables).users && u != userId
                               && old(tables).users[u].email == normalize(address.value)
      ensures !outcome.Adopted? ==> tables == old(tables)
      ensures outcome.Adopted? ==>
                && tables.markers == old(tables).markers - {userId}
                && tables.accounts == old(tables).accounts && tables.sessions == old(tables).sessions
                && (if address.None? || userId !in old(tables).users then tables.users == old(tables).users
                    else
                      var user := User(old(tables).users[userId].id, normalize(address.value), verified);
                      tables.users == old(tables).users[userId := user])
    {
      if userId !in tables.markers {
        return NotAnonymous;
      }
      if address.None? && !(factors(userId) > 0 || SettledInTables(normalize, tables, userId)) {
        return NoCredential;
      }
      var users := tables.users;
      if address.Some? {
        var email := normalize(address.value);
        if exists u :: u in users && u != userId && users[u].email == email {
          return AddressTaken;
        }
        if userId in users {
          users := users[userId := users[userId].(email := email, emailVerified := verified)];
        }
      }
      tables := tables.(users := users, markers := tables.markers - {userId});
      return Adopted;
    }

    /** Only visitors may be discarded. */
    method Discard(userId: nat) returns (ok: bool)
      modifies this
      ensures ok <==> userId in old(tables).markers
      ensures tables == if ok then Without(old(tables), userId) else old(tables)
    {
      if userId !in tables.markers {
        return false;
      }
      tables := Without(tables, userId);
      return true;
    }

    /** Removes exactly the listed visitors who are still there and have not become persons, and counts them. */
    method Sweep(idle: seq<nat>, limit: nat, before: int, now: int) returns (removed: nat)
      requires ListsIdle(tables, before, now, limit, idle)
      modifies this
      ensures removed <= limit
      ensures tables.users.Keys == old(tables).users.Keys - Disposable(normalize, old(tables), factors, idle)
      ensures removed == |Disposable(normalize, old(tables), factors, idle)|
      ensures forall u :: u in tables.users ==> tables.users[u] == old(tables).users[u]
      ensures forall u :: u in old(tables).users && Settled(normalize, old(tables), factors, u) ==> u in tables.users
      ensures forall u :: u in old(tables).users && u !in tables.users ==>
                && u in old(tables).markers && old(tables).markers[u] <= before
                && forall x :: x in old(tables).sessions && old(tables).sessions[x].userId == u ==>
                     old(tables).sessions[x].expiresAt <= now
      ensures |idle| < limit ==>
                forall u :: u in tables.users && u in old(tables).markers && old(tables).markers[u] <= before
                            && (forall x :: x in old(tables).sessions && old(tables).sessions[x].userId == u ==>
                                  old(tables).sessions[x].expiresAt <= now) ==>
                  Settled(normalize, old(tables), factors, u)
    {
      hide Settled, Without, Idle, SweptTo;
      removed := 0;
      ghost var start := tables;
      SweptNothing(normalize, start, factors);
      for i := 0 to |idle|
        invariant removed == |Disposable(normalize, start, factors, idle[..i])| <= i
        invariant SweptTo(normalize, start, factors, tables, Disposable(normalize, start, factors, idle[..i]))
      {
        var userId := idle[i];
        SweepStep(normalize, start, factors, tables, idle, i);
        if userId in tables.users && !IsSettled(userId) {
          tables := Without(tables, userId);
          removed := removed + 1;
        }
      }
      assert idle[..|idle|] == idle;
      Swept(normalize, start, factors, tables, idle);
      IdleMeans(start, before, now);
    }

    predicate IsSettled(userId: nat)
      reads this
      ensures IsSettled(userId) == Settled(normalize, tables, factors, userId)
    {
      factors(userId) > 0 || SettledInTables(normalize, tables, userId)
    }
  }

  lemma IdleMeans(t: Tables, before: int, now: int)
    ensures forall u :: Idle(t, u, before, now) <==>
              u in t.markers && t.markers[u] <= before
              && forall x :: x in t.sessions && t.sessions[x].userId == u ==> t.sessions[x].expiresAt <= now
  {
  }

  /** The listed visitors who exist and are not settled. */
  function Disposable(normalize: string -> string, t: Tables, factors: nat -> nat, idle: seq<nat>): set<nat> {
    set u | u in idle && u in t.users && !Settled(normalize, t, factors, u)
  }

  /** Midway: exactly `gone` removed, everybody else as they were and as settled as they were. */
  ghost predicate SweptTo(normalize: string -> string, start: Tables, factors: nat -> nat, t: Tables, gone: set<nat>) {
    && t.users.Keys == start.users.Keys - gone
    && (forall u :: u in t.users ==> t.users[u] == start.users[u])
    && (forall u :: u !in gone ==> (Settled(normalize, t, factors, u) <==> Settled(normalize, start, factors, u)))
  }

  lemma SweptNothing(normalize: string -> string, start: Tables, factors: nat -> nat)
    ensures Disposable(normalize, start, factors, []) == {}
    ensures SweptTo(normalize, start, factors, start, {})
  {
    hide Settled;
  }

  lemma SweepStep(normalize: string -> string, start: Tables, factors: nat -> nat, t: Tables, idle: seq<nat>, i: nat)
    requires i < |idle| && forall j, k :: 0 <= j < k < |idle| ==> idle[j] != idle[k]
    requires SweptTo(normalize, start, factors, t, Disposable(normalize, start, factors, idle[..i]))
    ensures var before, after :=
              Disposable(normalize, start, factors, idle[..i]), Disposable(normalize, start, factors, idle[..i + 1]);
            if idle[i] in t.users && !Settled(normalize, t, factors, idle[i]) then
              |after| == |before| + 1 && SweptTo(normalize, start, factors, Without(t, idle[i]), after)
            else after == before
  {
    hide Settled, SweptTo;
    var before, after :=
      Disposable(normalize, start, factors, idle[..i]), Disposable(normalize, start, factors, idle[..i + 1]);
    var u := idle[i];
    assert idle[..i + 1] == idle[..i] + [u];
    assert u !in before;
    assert after == if u in start.users && !Settled(normalize, start, factors, u) then before + {u} else before;
    StillJudged(normalize, start, factors, t, before, u);
    if u in t.users && !Settled(normalize, t, factors, u) {
      OneMoreGone(normalize, start, factors, t, before, u);
    }
  }

  lemma StillJudged(normalize: string -> string, start: Tables, factors: nat -> nat, t: Tables, gone: set<nat>, u: nat)
    requires SweptTo(normalize, start, factors, t, gone) && u !in gone
    ensures u in t.users <==> u in start.users
    ensures Settled(normalize, t, factors, u) <==> Settled(normalize, start, factors, u)
  {
    hide Settled;
  }

  lemma OneMoreGone(normalize: string -> string, start: Tables, factors: nat -> nat, t: Tables, gone: set<nat>, u: nat)
    requires SweptTo(normalize, start, factors, t, gone) && u !in gone
    ensures SweptTo(normalize, start, factors, Without(t, u), gone + {u})
  {
    hide Settled;
    forall v | v !in gone + {u}
      ensures Settled(normalize, Without(t, u), factors, v) <==> Settled(normalize, start, factors, v)
    {
      OthersUnaffected(normalize, t, factors, u, v);
    }
  }

  lemma Swept(normalize: string -> string, start: Tables, factors: nat -> nat, t: Tables, idle: seq<nat>)
    requires SweptTo(normalize, start, factors, t, Disposable(normalize, start, factors, idle))
    ensures t.users.Keys == start.users.Keys - Disposable(normalize, start, factors, idle)
    ensures forall u :: u in t.users ==> t.users[u] == start.users[u]
    ensures forall u :: u in start.users && Settled(normalize, start, factors, u) ==> u in t.users
  {
    hide Settled;
  }
}
