/**
  Removing a sign-in method, as transactions that interleave: the rows are read
  under a lock on the user's rows, the factors are counted inside it, and the
  delete commits and releases. Methods and factors may be added meanwhile.
 */
module Unlink {
  import opened Prelude
  import opened Accounts

  datatype Outcome = Removed | NoSuchMethod | LastMethod

  datatype Call =
    | Waiting(target: nat, user: nat)
    | Counting(target: nat, user: nat, held: map<nat, Account>)
    | Deciding(target: nat, user: nat, held: map<nat, Account>, factors: nat)
    | Deleting(target: nat, user: nat, held: map<nat, Account>, factors: nat)
    | Over(target: nat, user: nat, outcome: Outcome)

  /** `locking` is whether the read locks, as the source's does. `born` is every id ever inserted. */
  datatype State = State(accounts: map<nat, Account>, factors: map<nat, nat>, holder: map<nat, nat>,
                         calls: map<nat, Call>, born: set<nat>, locking: bool)

  datatype Step =
    | Begin(f: nat, target: nat, user: nat)
    | Acquire(f: nat)
    | CountFactors(f: nat)
    | Decide(f: nat)
    | Commit(f: nat)
    | Link(account: Account)
    | FillPassword(id: nat, hash: string)
    | AddFactor(user: nat)

  function FactorsOf(s: State, user: nat): nat { if user in s.factors then s.factors[user] else 0 }

  function HeldBy(accounts: map<nat, Account>, user: nat): map<nat, Account> {
    map a | a in accounts && accounts[a].userId == user :: accounts[a]
  }

  function Remaining(held: map<nat, Account>, target: nat): set<nat> {
    set a | a in held && a != target && CanSignIn(held[a])
  }

  /** The transaction ends: the call answers and its lock goes. */
  function Ended(s: State, f: nat, outcome: Outcome): State
    requires f in s.calls
  {
    var call := s.calls[f];
    s.(calls := s.calls[f := Over(call.target, call.user, outcome)], holder := s.holder - {call.user})
  }

  function Apply(s: State, step: Step): State {
    match step
    case Begin(f, target, user) => if f in s.calls then s else s.(calls := s.calls[f := Waiting(target, user)])
    case Acquire(f) =>
      if !(f in s.calls && s.calls[f].Waiting?) || (s.locking && s.calls[f].user in s.holder) then s
      else
        var call := s.calls[f];
        s.(calls := s.calls[f := Counting(call.target, call.user, HeldBy(s.accounts, call.user))],
           holder := if s.locking then s.holder[call.user := f] else s.holder)
    case CountFactors(f) =>
      if !(f in s.calls && s.calls[f].Counting?) then s
      else
        var call := s.calls[f];
        if call.target !in call.held then Ended(s, f, NoSuchMethod)
        else s.(calls := s.calls[f := Deciding(call.target, call.user, call.held, FactorsOf(s, call.user))])
    case Decide(f) =>
      if !(f in s.calls && s.calls[f].Deciding?) then s
      else
        var call := s.calls[f];
        if |Remaining(call.held, call.target)| + call.factors == 0 then Ended(s, f, LastMethod)
        else s.(calls := s.calls[f := Deleting(call.target, call.user, call.held, call.factors)])
    case Commit(f) =>
      if !(f in s.calls && s.calls[f].Deleting?) then s
      else
        var call := s.calls[f];
        if call.target in s.accounts && s.accounts[call.target].userId == call.user then
          Ended(s.(accounts := s.accounts - {call.target}), f, Removed)
        else Ended(s, f, NoSuchMethod)
    case Link(account) =>
      if account.id in s.born then s
      else s.(accounts := s.accounts[account.id := account], born := s.born + {account.id})
    case FillPassword(id, hash) =>
      if id !in s.accounts then s else s.(accounts := s.accounts[id := s.accounts[id].(passwordHash := Some(hash))])
    case AddFactor(user) => s.(factors := s.factors[user := FactorsOf(s, user) + 1])
  }

  function Run(s: State, steps: seq<Step>): State
    decreases |steps|
  {
    if steps == [] then s else Run(Apply(s, steps[0]), steps[1..])
  }

  /** How many ways in a user has: accounts that can authenticate, and factors that stand alone. */
  function WaysIn(s: State, user: nat): nat {
    |set a | a in s.accounts && s.accounts[a].userId == user && CanSignIn(s.accounts[a])| + FactorsOf(s, user)
  }

  predicate IsWayIn(s: State, user: nat, a: nat) {
    a in s.accounts && s.accounts[a].userId == user && CanSignIn(s.accounts[a])
  }

  ghost predicate HasWayIn(s: State, user: nat) { FactorsOf(s, user) > 0 || exists a :: IsWayIn(s, user, a) }

  lemma WaysInPositive(s: State, user: nat)
    ensures WaysIn(s, user) > 0 <==> HasWayIn(s, user)
  {
    var ways := set a | a in s.accounts && s.accounts[a].userId == user && CanSignIn(s.accounts[a]);
    if a :| a in ways {
      assert IsWayIn(s, user, a);
    } else {
      assert ways == {};
      assert forall a :: IsWayIn(s, user, a) ==> a in ways;
    }
  }

  // ---------------------------------------------------------------------------
  // The invariant
  // ---------------------------------------------------------------------------

  predicate Inside(call: Call) { call.Counting? || call.Deciding? || call.Deleting? }

  /** What a call read under the lock is still there. */
  predicate StillHolds(s: State, call: Call)
    requires Inside(call)
  {
    && (forall a :: a in call.held ==> a in s.accounts && s.accounts[a].userId == call.user
                                       && (CanSignIn(call.held[a]) ==> CanSignIn(s.accounts[a])))
    && (!call.Counting? ==> call.target in call.held && call.factors <= FactorsOf(s, call.user))
    && (call.Deleting? ==> |Remaining(call.held, call.target)| + call.factors > 0)
  }

  predicate HoldsLock(s: State, f: nat)
    requires f in s.calls && Inside(s.calls[f])
  {
    s.calls[f].user in s.holder && s.holder[s.calls[f].user] == f && StillHolds(s, s.calls[f])
  }

  ghost predicate LocksGood(s: State) { forall f :: f in s.calls && Inside(s.calls[f]) ==> HoldsLock(s, f) }

  ghost predicate RemovalsGood(s: State) {
    && (forall f :: Succeeded(s, f) ==> s.calls[f].target in s.born && s.calls[f].target !in s.accounts)
    && (forall f, g :: Succeeded(s, f) && Succeeded(s, g) && s.calls[f].target == s.calls[g].target ==> f == g)
  }

  ghost predicate Inv(s: State) {
    && s.locking && s.accounts.Keys <= s.born
    && (forall a :: a in s.accounts ==> s.accounts[a].id == a)
    && LocksGood(s) && RemovalsGood(s)
  }

  predicate Succeeded(s: State, f: nat) { f in s.calls && s.calls[f].Over? && s.calls[f].outcome.Removed? }

  lemma KeepsOnGrowth(s: State, step: Step)
    requires Inv(s) && (step.Link? || step.FillPassword? || step.AddFactor? || step.Begin?)
    ensures Inv(Apply(s, step))
  {
    hide Remaining, HeldBy, Ended;
    var t := Apply(s, step);
    forall f | f in t.calls && Inside(t.calls[f]) ensures HoldsLock(t, f) {
      assert HoldsLock(s, f);
    }
  }

  /** A move of one call that leaves the tables alone. */
  lemma KeepsOnMove(s: State, t: State, f: nat)
    requires Inv(s) && f in s.calls && f in t.calls && t.calls == s.calls[f := t.calls[f]] && !t.calls[f].Waiting?
    requires t.accounts == s.accounts && t.factors == s.factors && t.born == s.born && t.locking == s.locking
    requires t.calls[f].user == s.calls[f].user
    requires if Inside(t.calls[f]) then t.holder == s.holder[t.calls[f].user := f] && StillHolds(t, t.calls[f])
             else !Succeeded(t, f) && t.holder == s.holder - {s.calls[f].user}
    requires Inside(s.calls[f]) || (s.calls[f].Waiting? && s.calls[f].user !in s.holder)
    ensures Inv(t)
  {
    hide Remaining;
    assert LocksGood(t) by {
      hide RemovalsGood, StillHolds;
      OthersElsewhere(s, f);
      forall g | g in s.calls && Inside(s.calls[g]) && g != f ensures HoldsLock(t, g) {
        assert HoldsLock(s, g);
        SameTables(s, t, s.calls[g]);
      }
    }
    assert RemovalsGood(t) by {
      hide LocksGood, StillHolds;
      assert RemovalsGood(s);
      assert forall g :: Succeeded(t, g) ==> g != f && Succeeded(s, g);
    }
  }

  lemma SameTables(s: State, t: State, call: Call)
    requires Inside(call) && StillHolds(s, call) && t.accounts == s.accounts && t.factors == s.factors
    ensures StillHolds(t, call)
  {
    hide Remaining;
  }

  /** Inside a transaction for a user nobody else is. */
  lemma OthersElsewhere(s: State, f: nat)
    requires Inv(s) && f in s.calls && (Inside(s.calls[f]) || s.calls[f].user !in s.holder)
    ensures forall g :: g in s.calls && Inside(s.calls[g]) && g != f ==> s.calls[g].user != s.calls[f].user
  {
    hide StillHolds;
    forall g | g in s.calls && Inside(s.calls[g]) && g != f ensures s.calls[g].user != s.calls[f].user {
      assert HoldsLock(s, g) && (Inside(s.calls[f]) ==> HoldsLock(s, f));
    }
  }

  lemma KeepsOnCommit(s: State, f: nat)
    requires Inv(s)
    ensures Inv(Apply(s, Commit(f)))
  {
    hide Remaining;
    var t := Apply(s, Commit(f));
    if f in s.calls && s.calls[f].Deleting? {
      var call := s.calls[f];
      assert HoldsLock(s, f);
      OthersElsewhere(s, f);
      forall g | g in s.calls && Inside(s.calls[g]) && g != f ensures HoldsLock(t, g) {
        assert HoldsLock(s, g);
      }
      assert forall g :: g != f ==> (Succeeded(t, g) <==> Succeeded(s, g));
    }
  }

  lemma KeepsInv(s: State, step: Step)
    requires Inv(s)
    ensures Inv(Apply(s, step))
  {
    hide Inv, StillHolds, Remaining;
    match step
    case Acquire(f) => KeepsOnCallStep(s, step, f);
    case CountFactors(f) => KeepsOnCallStep(s, step, f);
    case Decide(f) => KeepsOnCallStep(s, step, f);
    case Commit(f) => KeepsOnCommit(s, f);
    case _ => KeepsOnGrowth(s, step);
  }

  lemma KeepsOnCallStep(s: State, step: Step, f: nat)
    requires Inv(s) && (step.Acquire? || step.CountFactors? || step.Decide?) && f == step.f
    ensures Inv(Apply(s, step))
  {
    var t := Apply(s, step);
    if t != s {
      assert Inside(s.calls[f]) ==> HoldsLock(s, f);
      KeepsOnMove(s, t, f);
    }
  }

  /** A commit leaves its user one of the ways in it counted, and takes none from anybody else. */
  lemma CommitKeepsWayIn(s: State, f: nat, user: nat)
    requires Inv(s) && HasWayIn(s, user)
    ensures HasWayIn(Apply(s, Commit(f)), user)
  {
    hide CanSignIn, RemovalsGood;
    var t := Apply(s, Commit(f));
    if t.accounts != s.accounts {
      var call := s.calls[f];
      assert HoldsLock(s, f);
      if call.user != user {
        if FactorsOf(s, user) == 0 {
          var a :| IsWayIn(s, user, a);
          assert IsWayIn(t, user, a);
        }
      } else if call.factors == 0 {
        var a :| a in Remaining(call.held, call.target);
        assert IsWayIn(t, user, a);
      }
    } else if FactorsOf(s, user) == 0 {
      var a :| IsWayIn(s, user, a);
      assert IsWayIn(t, user, a);
    }
  }

  lemma KeepsWayIn(s: State, step: Step, user: nat)
    requires Inv(s) && HasWayIn(s, user)
    ensures HasWayIn(Apply(s, step), user)
  {
    hide LocksGood, RemovalsGood, Remaining, HeldBy;
    if step.Commit? {
      CommitKeepsWayIn(s, step.f, user);
    } else if FactorsOf(s, user) == 0 {
      var a :| IsWayIn(s, user, a);
      assert a in s.born;
      assert IsWayIn(Apply(s, step), user, a);
    }
  }

  lemma {:induction false} RunKeepsWayIn(s: State, steps: seq<Step>, user: nat)
    requires Inv(s)
    ensures Inv(Run(s, steps)) && (HasWayIn(s, user) ==> HasWayIn(Run(s, steps), user))
    decreases |steps|
  {
    hide Apply, Inv, HasWayIn;
    if steps != [] {
      KeepsInv(s, steps[0]);
      if HasWayIn(s, user) {
        KeepsWayIn(s, steps[0], user);
      }
      RunKeepsWayIn(Apply(s, steps[0]), steps[1..], user);
    }
  }

  function Initial(accounts: map<nat, Account>, factors: map<nat, nat>, locking: bool): State {
    State.State(accounts, factors, map[], map[], accounts.Keys, locking)
  }

  /**
    However many unlinks race, a user who can sign in - with a factor that stands alone,
    a provider's account or a password - can still sign in.
   */
  lemma NeverLockedOut(accounts: map<nat, Account>, factors: map<nat, nat>, steps: seq<Step>, user: nat)
    requires forall a :: a in accounts ==> accounts[a].id == a
    requires (user in factors && factors[user] > 0)
             || exists a :: a in accounts && accounts[a].userId == user
                            && (accounts[a].issuer != "local:credential" || accounts[a].passwordHash.Some?)
    ensures var s := Run(Initial(accounts, factors, true), steps);
            (user in s.factors && s.factors[user] > 0)
            || exists a :: a in s.accounts && s.accounts[a].userId == user
                           && (s.accounts[a].issuer != "local:credential" || s.accounts[a].passwordHash.Some?)
  {
    var s := Initial(accounts, factors, true);
    if !(user in factors && factors[user] > 0) {
      var a :| a in accounts && accounts[a].userId == user
               && (accounts[a].issuer != "local:credential" || accounts[a].passwordHash.Some?);
      assert IsWayIn(s, user, a);
    }
    RunKeepsWayIn(s, steps, user);
    var end := Run(s, steps);
    if FactorsOf(end, user) == 0 {
      var a :| IsWayIn(end, user, a);
      assert a in end.accounts;
    }
  }

  /** A call that succeeds removes the row it named, that user's, and nothing else; no two remove the same one. */
  lemma EachRemovesItsOwn(accounts: map<nat, Account>, factors: map<nat, nat>, steps: seq<Step>, f: nat, g: nat)
    requires forall a :: a in accounts ==> accounts[a].id == a
    ensures var s := Run(Initial(accounts, factors, true), steps);
            var t := Apply(s, Commit(f));
            && (f in s.calls && s.calls[f].Deleting? ==>
                  && s.calls[f].target in s.accounts && s.accounts[s.calls[f].target].userId == s.calls[f].user
                  && t.accounts == s.accounts - {s.calls[f].target} && Succeeded(t, f))
            && (Succeeded(s, f) && Succeeded(s, g) && f != g ==> s.calls[f].target != s.calls[g].target)
            && (Succeeded(s, f) ==> s.calls[f].target !in s.accounts)
  {
    hide Remaining;
    var s := Run(Initial(accounts, factors, true), steps);
    RunKeepsWayIn(Initial(accounts, factors, true), steps, 0);
    if f in s.calls && s.calls[f].Deleting? {
      assert HoldsLock(s, f);
    }
  }

  /** Nothing but a successful call removes a row, and every row it removes is accounted for. */
  lemma {:induction false} NoOtherRemoval(s: State, steps: seq<Step>, a: nat)
    requires Inv(s) && a in s.accounts && a !in Run(s, steps).accounts
    ensures exists f :: Succeeded(Run(s, steps), f) && Run(s, steps).calls[f].target == a
    decreases |steps|
  {
    hide Remaining, HeldBy;
    if steps != [] {
      var t := Apply(s, steps[0]);
      KeepsInv(s, steps[0]);
      if a in t.accounts {
        hide Apply;
        NoOtherRemoval(t, steps[1..], a);
      } else {
        var f := steps[0].f;
        assert Succeeded(t, f) && t.calls[f].target == a;
        hide Apply;
        OverStays(t, steps[1..], f);
      }
    }
  }

  lemma {:induction false} OverStays(s: State, steps: seq<Step>, f: nat)
    requires Succeeded(s, f)
    ensures Succeeded(Run(s, steps), f) && Run(s, steps).calls[f].target == s.calls[f].target
    decreases |steps|
  {
    if steps != [] {
      assert Succeeded(Apply(s, steps[0]), f) && Apply(s, steps[0]).calls[f].target == s.calls[f].target;
      hide Apply;
      OverStays(Apply(s, steps[0]), steps[1..], f);
    }
  }

  /**
    Undisturbed, one transaction removes the row exactly when it is the user's and leaves another
    way in: a factor, a provider's account or a password.
   */
  lemma UnlinkAlone(s: State, f: nat, target: nat, user: nat)
    requires s.locking && f !in s.calls && user !in s.holder
    ensures var owned := target in s.accounts && s.accounts[target].userId == user;
            var spare := (user in s.factors && s.factors[user] > 0)
                         || exists a :: a in s.accounts && s.accounts[a].userId == user && a != target
                              && (s.accounts[a].issuer != "local:credential" || s.accounts[a].passwordHash.Some?);
            var end := Run(s, [Begin(f, target, user), Acquire(f), CountFactors(f), Decide(f), Commit(f)]);
            && end.accounts == (if owned && spare then s.accounts - {target} else s.accounts)
            && end.calls
              == s.calls[f := Over(target, user, if !owned then NoSuchMethod else if spare then Removed
                                   else LastMethod)]
            && end.holder == s.holder
  {
    hide Apply, Run, Remaining, HeldBy, CanSignIn, FactorsOf;
    CountedAlone(s, f, target, user);
    SpareIs(s, target, user);
  }

  lemma CountedAlone(s: State, f: nat, target: nat, user: nat)
    requires s.locking && f !in s.calls && user !in s.holder
    ensures var owned := target in s.accounts && s.accounts[target].userId == user;
            var spare := |Remaining(HeldBy(s.accounts, user), target)| + FactorsOf(s, user) > 0;
            var end := Run(s, [Begin(f, target, user), Acquire(f), CountFactors(f), Decide(f), Commit(f)]);
            && end.accounts == (if owned && spare then s.accounts - {target} else s.accounts)
            && end.calls
              == s.calls[f := Over(target, user, if !owned then NoSuchMethod else if spare then Removed
                                   else LastMethod)]
            && end.holder == s.holder
  {
    hide Apply, Run, Remaining, CanSignIn, HeldBy, FactorsOf;
    var steps := [Begin(f, target, user), Acquire(f), CountFactors(f), Decide(f), Commit(f)];
    HeldIff(s.accounts, target, user);
    BeginAcquire(s, f, target, user);
    var inside := s.(calls := s.calls[f := Counting(target, user, HeldBy(s.accounts, user))],
                     holder := s.holder[user := f]);
    SameFactors(s, inside, user);
    CountDecideCommit(inside, f);
    RunsFive(s, steps[0], steps[1], steps[2], steps[3], steps[4]);
    assert inside.holder - {user} == s.holder;
    var end := Run(s, steps);
    assert inside.calls[f := end.calls[f]] == s.calls[f := end.calls[f]];
  }

  lemma SpareIs(s: State, target: nat, user: nat)
    ensures |Remaining(HeldBy(s.accounts, user), target)| + FactorsOf(s, user) > 0
       <==> (user in s.factors && s.factors[user] > 0)
            || exists a :: a in s.accounts && s.accounts[a].userId == user && a != target
                 && (s.accounts[a].issuer != "local:credential" || s.accounts[a].passwordHash.Some?)
  {
    var remaining := Remaining(HeldBy(s.accounts, user), target);
    if remaining != {} {
      var a :| a in remaining;
      assert a in s.accounts;
    }
    forall a | a in s.accounts && s.accounts[a].userId == user && a != target
               && (s.accounts[a].issuer != "local:credential" || s.accounts[a].passwordHash.Some?)
      ensures a in remaining
    {
    }
  }

  lemma HeldIff(accounts: map<nat, Account>, target: nat, user: nat)
    ensures target in HeldBy(accounts, user) <==> target in accounts && accounts[target].userId == user
  {
  }

  lemma RunsFive(s: State, a: Step, b: Step, c: Step, d: Step, e: Step)
    ensures Run(s, [a, b, c, d, e]) == Apply(Apply(Apply(Apply(Apply(s, a), b), c), d), e)
  {
    hide Apply;
    var s1, s2, s3, s4 :=
      Apply(s, a), Apply(Apply(s, a), b), Apply(Apply(Apply(s, a), b), c), Apply(Apply(Apply(Apply(s, a), b), c), d);
    RunsThrough([a, b, c, d, e], [s, s1, s2, s3, s4, Apply(s4, e)]);
  }

  lemma SameFactors(s: State, t: State, user: nat)
    requires s.factors == t.factors
    ensures FactorsOf(s, user) == FactorsOf(t, user)
  {
  }

  lemma BeginAcquire(s: State, f: nat, target: nat, user: nat)
    requires s.locking && f !in s.calls && user !in s.holder
    ensures Apply(Apply(s, Begin(f, target, user)), Acquire(f))
         == s.(calls := s.calls[f := Counting(target, user, HeldBy(s.accounts, user))], holder := s.holder[user := f])
  {
    hide HeldBy;
    assert s.calls[f := Waiting(target, user)][f := Counting(target, user, HeldBy(s.accounts, user))]
        == s.calls[f := Counting(target, user, HeldBy(s.accounts, user))];
  }

  lemma CountDecideCommit(s: State, f: nat)
    requires f in s.calls && s.calls[f].Counting? && s.calls[f].held == HeldBy(s.accounts, s.calls[f].user)
    ensures var call := s.calls[f];
            var owned, spare :=
              call.target in call.held, |Remaining(call.held, call.target)| + FactorsOf(s, call.user) > 0;
            var end := Apply(Apply(Apply(s, CountFactors(f)), Decide(f)), Commit(f));
            && end.accounts == (if owned && spare then s.accounts - {call.target} else s.accounts)
            && end.calls
              == s.calls[f := Over(call.target, call.user, if !owned then NoSuchMethod else if spare then Removed
                                   else LastMethod)]
            && end.holder == s.holder - {call.user}
  {
    var call := s.calls[f];
    var counted := Apply(s, CountFactors(f));
    if call.target in call.held {
      CountsThenDecides(s, f);
    } else {
      assert counted == Ended(s, f, NoSuchMethod);
      assert Apply(counted, Decide(f)) == counted && Apply(counted, Commit(f)) == counted;
    }
  }

  lemma CountsThenDecides(s: State, f: nat)
    requires f in s.calls && s.calls[f].Counting? && s.calls[f].held == HeldBy(s.accounts, s.calls[f].user)
    requires s.calls[f].target in s.calls[f].held
    ensures var call := s.calls[f];
            var spare := |Remaining(call.held, call.target)| + FactorsOf(s, call.user) > 0;
            var end := Apply(Apply(Apply(s, CountFactors(f)), Decide(f)), Commit(f));
            && end.accounts == (if spare then s.accounts - {call.target} else s.accounts)
            && end.calls == s.calls[f := Over(call.target, call.user, if spare then Removed else LastMethod)]
            && end.holder == s.holder - {call.user}
  {
    hide Remaining, CanSignIn;
    var call := s.calls[f];
    assert call.target in s.accounts && s.accounts[call.target].userId == call.user;
    hide HeldBy;
    var counted := s.(calls := s.calls[f := Deciding(call.target, call.user, call.held, FactorsOf(s, call.user))]);
    assert Apply(s, CountFactors(f)) == counted;
    var decided := Apply(counted, Decide(f));
    if |Remaining(call.held, call.target)| + FactorsOf(s, call.user) == 0 {
      assert Apply(decided, Commit(f)) == decided;
    }
  }

  // ---------------------------------------------------------------------------
  // Without the lock
  // ---------------------------------------------------------------------------

  const TWO := map[0 := Account(0, "i", "a", "p", 7, None, None), 1 := Account(1, "j", "b", "q", 7, None, None)]

  function Unlocked(accounts: map<nat, Account>, calls: map<nat, Call>): State {
    State.State(accounts, map[], map[], calls, {0, 1}, false)
  }

  lemma TwoWays()
    ensures HeldBy(TWO, 7) == TWO && |Remaining(TWO, 0)| == 1 && |Remaining(TWO, 1)| == 1
    ensures WaysIn(Initial(TWO, map[], false), 7) == 2
  {
    assert "i"[0] != CREDENTIAL_ISSUER[0] && "j"[0] != CREDENTIAL_ISSUER[0];
    assert Remaining(TWO, 0) == {1} && Remaining(TWO, 1) == {0};
    assert (set x | x in TWO && TWO[x].userId == 7 && CanSignIn(TWO[x])) == {0, 1};
  }

  /** The lock is what does it: two plain reads, two different deletes, nothing left. */
  lemma PlainReadsLockOut()
    ensures exists accounts: map<nat, Account>, steps: seq<Step> ::
              WaysIn(Initial(accounts, map[], false), 7) == 2
                && WaysIn(Run(Initial(accounts, map[], false), steps), 7) == 0
  {
    TwoWays();
    var s := Initial(TWO, map[], false);
    var reading := BothRead();
    var end := Unlocked(map[], map[0 := Over(0, 7, Removed), 1 := Over(1, 7, Removed)]);
    var half := Unlocked(TWO - {0}, map[0 := Over(0, 7, Removed), 1 := Deleting(1, 7, TWO, 0)]);
    var both := Run(s, reading);
    assert Apply(both, Commit(0)) == half && Apply(half, Commit(1)) == end;
    WaysInPositive(end, 7);
    assert forall a :: !IsWayIn(end, 7, a);
    hide Apply, WaysIn;
    RunsThrough([Commit(0), Commit(1)], [both, half, end]);
    RunSplit(s, reading, [Commit(0), Commit(1)]);
    assert WaysIn(Run(s, reading + [Commit(0), Commit(1)]), 7) == 0;
  }

  lemma BothRead() returns (steps: seq<Step>)
    ensures Run(Initial(TWO, map[], false), steps)
            == Unlocked(TWO, map[0 := Deleting(0, 7, TWO, 0), 1 := Deleting(1, 7, TWO, 0)])
  {
    hide Run;
    ReadsAll(map[], 0);
    ReadsAll(map[0 := Deleting(0, 7, TWO, 0)], 1);
    steps := ReadSteps(0) + ReadSteps(1);
    RunSplit(Initial(TWO, map[], false), ReadSteps(0), ReadSteps(1));
    var e0: Call := Deleting(0, 7, TWO, 0);
    assert TWO.Keys == {0, 1} && Initial(TWO, map[], false) == Unlocked(TWO, map[]);
    assert map[][0 := e0] == map[0 := e0]
           && map[0 := e0][1 := Deleting(1, 7, TWO, 0)] == map[0 := e0, 1 := Deleting(1, 7, TWO, 0)];
  }

  function ReadSteps(f: nat): seq<Step> { [Begin(f, f, 7), Acquire(f), CountFactors(f), Decide(f)] }

  /** Without the lock a call reads both methods whoever else is reading. */
  lemma ReadsAll(calls: map<nat, Call>, f: nat)
    requires f !in calls && f in TWO
    ensures Run(Unlocked(TWO, calls), ReadSteps(f)) == Unlocked(TWO, calls[f := Deleting(f, 7, TWO, 0)])
  {
    TwoWays();
    hide Remaining, HeldBy, WaysIn, CanSignIn;
    var steps := ReadSteps(f);
    var s1 := Unlocked(TWO, calls[f := Waiting(f, 7)]);
    var s2 := Unlocked(TWO, calls[f := Counting(f, 7, TWO)]);
    var s3 := Unlocked(TWO, calls[f := Deciding(f, 7, TWO, 0)]);
    var s4 := Unlocked(TWO, calls[f := Deleting(f, 7, TWO, 0)]);
    assert Apply(Unlocked(TWO, calls), steps[0]) == s1;
    assert Apply(s1, steps[1]) == s2;
    assert Apply(s2, steps[2]) == s3;
    assert Apply(s3, steps[3]) == s4;
    hide Apply;
    RunsThrough(steps, [Unlocked(TWO, calls), s1, s2, s3, s4]);
  }

  lemma {:induction false} RunsThrough(steps: seq<Step>, states: seq<State>)
    requires |states| == |steps| + 1
    requires forall i :: 0 <= i < |steps| ==> states[i + 1] == Apply(states[i], steps[i])
    ensures Run(states[0], steps) == states[|steps|]
    decreases |steps|
  {
    hide Apply;
    if steps != [] {
      RunsThrough(steps[1..], states[1..]);
    }
  }

  lemma {:induction false} RunSplit(s: State, a: seq<Step>, b: seq<Step>)
    ensures Run(s, a + b) == Run(Run(s, a), b)
    decreases |a|
  {
    hide Apply;
    if a == [] {
      assert a + b == b;
    } else {
      assert (a + b)[1..] == a[1..] + b;
      RunSplit(Apply(s, a[0]), a[1..], b);
    }
  }
}
