/**
  The sign-in choke point: hooks, deciders, then a session row and its event.
  Hooks and deciders are state-passing functions over the whole world, so they may
  change anything; what `complete` itself adds is proved for any list of plugins.
 */
module SignIn {
  import opened Prelude
  import opened Platform
  import opened Hooks
  import opened Assurance
  import opened Sessions

  datatype ProvisionSource = EmailPassword | OAuth(providerId: string) | MagicLink | Plugin(plugin: string)

  function MethodOf(source: ProvisionSource): string {
    match source
    case EmailPassword => "password"
    case OAuth(providerId) => "oauth:" + providerId
    case MagicLink => "magic-link"
    case Plugin(plugin) => plugin
  }

  datatype CompleteOptions = CompleteOptions(userId: nat, source: ProvisionSource, current: Option<Session>,
                                             evidence: seq<Evidence>, rememberMe: Option<bool>)

  datatype SignedIn = SignedIn(userId: nat, sessionId: nat, name: string, methods: seq<AuthenticationMethod>)

  /** The two tables `complete` writes, and everything else hooks may touch. */
  datatype World<!X> = World(sessions: map<nat, Session>, events: seq<SignedIn>, other: X)

  // ---------------------------------------------------------------------------
  // The decider pipeline
  // ---------------------------------------------------------------------------

  datatype Decision<+W> =
    | Proceed(world: W)
    | Challenge(kind: string, available: seq<string>, token: string, expiresAt: int, world: W)
    | Declined(code: string, world: W)

  type Decider<!O, !W> = (O, W) -> Decision<W>

  function Both<O, W>(first: Option<Decider<O, W>>, second: Option<Decider<O, W>>): Option<Decider<O, W>> {
    if first.None? then second
    else if second.None? then first
    else Some((o: O, w: W) => var decision := first.value(o, w);
                              if decision.Proceed? then second.value(o, decision.world) else decision)
  }

  /** The reference: ask the deciders that exist one by one, until one does not proceed. */
  function Decide<O, W>(deciders: seq<Option<Decider<O, W>>>, o: O, w: W): Decision<W>
    decreases |deciders|
  {
    if deciders == [] then Proceed(w)
    else
      var decision := Consult(deciders[0], o, w);
      if decision.Proceed? then Decide(deciders[1..], o, decision.world) else decision
  }

  function Consult<O, W>(decider: Option<Decider<O, W>>, o: O, w: W): Decision<W> {
    if decider.None? then Proceed(w) else decider.value(o, w)
  }

  ghost predicate SameDecider<O(!new), W(!new)>(a: Option<Decider<O, W>>, b: Option<Decider<O, W>>) {
    a.Some? == b.Some? && (a.Some? ==> forall o: O, w: W :: a.value(o, w) == b.value(o, w))
  }

  lemma PipelineMonoid<O(!new), W(!new)>(a: Option<Decider<O, W>>, b: Option<Decider<O, W>>, c: Option<Decider<O, W>>)
    ensures Both(None, a) == a && Both(a, None) == a
    ensures SameDecider(Both(Both(a, b), c), Both(a, Both(b, c)))
  {
  }

  lemma {:induction false} DecideSplit<O, W>(a: seq<Option<Decider<O, W>>>, b: seq<Option<Decider<O, W>>>, o: O, w: W)
    ensures Decide(a + b, o, w) == if Decide(a, o, w).Proceed? then Decide(b, o, Decide(a, o, w).world)
            else Decide(a, o, w)
    decreases |a|
  {
    if a == [] {
      assert a + b == b;
    } else {
      assert (a + b)[1..] == a[1..] + b;
      DecideSplit(a[1..], b, o, Consult(a[0], o, w).world);
    }
  }

  // ---------------------------------------------------------------------------
  // Plugins
  // ---------------------------------------------------------------------------

  /** What one plugin contributes: a hook set and a pipeline. */
  datatype Contribution<!C, !X> = Contribution(hooks: AuthHooks<C, CompleteOptions, World<X>>,
                                               decide: Option<Decider<CompleteOptions, World<X>>>)

  function HooksOf<C, X>(ps: seq<Contribution<C, X>>): seq<AuthHooks<C, CompleteOptions, World<X>>> {
    seq(|ps|, i requires 0 <= i < |ps| => ps[i].hooks)
  }

  function DecidersOf<C, X>(ps: seq<Contribution<C, X>>): seq<Option<Decider<CompleteOptions, World<X>>>> {
    seq(|ps|, i requires 0 <= i < |ps| => ps[i].decide)
  }

  /** What `appendPipeline` installs, plugin after plugin. */
  function InstalledPipeline<O, W>(deciders: seq<Option<Decider<O, W>>>): Option<Decider<O, W>>
    decreases |deciders|
  {
    if deciders == [] then None
    else Both(InstalledPipeline(deciders[..|deciders| - 1]), deciders[|deciders| - 1])
  }

  lemma {:induction false} PipelineInOrder<O, W>(deciders: seq<Option<Decider<O, W>>>, o: O, w: W)
    ensures Consult(InstalledPipeline(deciders), o, w) == Decide(deciders, o, w)
    decreases |deciders|
  {
    if deciders != [] {
      var init, last := deciders[..|deciders| - 1], deciders[|deciders| - 1];
      PipelineInOrder(init, o, w);
      assert deciders == init + [last];
      DecideSplit(init, [last], o, w);
    }
  }

  // ---------------------------------------------------------------------------
  // Completing a sign-in
  // ---------------------------------------------------------------------------

  datatype SignInResult =
    | Complete(session: Session, userId: nat, token: string)
    | Challenged(kind: string, available: seq<string>, challenge: string, expiresAt: int)
    | PolicyRefused(code: string)

  /** A fresh id and a fresh token for whatever the table holds. */
  type Supply = map<nat, Session> -> (nat, string)

  ghost predicate Fresh(supply: Supply) {
    forall rows: map<nat, Session> ::
      supply(rows).0 !in rows && forall id :: id in rows ==> rows[id].tokenHash != Sha256(supply(rows).1)
  }

  function Minted<X>(c: Config, supply: Supply, o: CompleteOptions, w: World<X>, now: int): (SignInResult, World<X>) {
    var (id, token) := supply(w.sessions);
    var session := NewSession(c, id, token, o.userId, o.evidence, o.rememberMe, None, now, now);
    (Complete(session, o.userId, token),
     w.(sessions := w.sessions[id := session],
        events := w.events + [SignedIn(o.userId, id, MethodOf(o.source), session.methods)]))
  }

  /** The order `complete` keeps: access hooks, deciders, mint hooks, then the row and its event. */
  function CompleteInOrder<C, X>(c: Config, supply: Supply, ps: seq<Contribution<C, X>>, o: CompleteOptions,
                                 w: World<X>, now: int)
    : (SignInResult, World<X>)
  {
    match Enter(GatesOf(HooksOf(ps), BeforeSessionCreate), o, w)
    case Refused(code, left) => (PolicyRefused(code), left)
    case Allowed(_, admitted) =>
      match Decide(DecidersOf(ps), o, admitted)
      case Declined(code, left) => (PolicyRefused(code), left)
      case Challenge(kind, available, token, expiresAt, left) => (Challenged(kind, available, token, expiresAt), left)
      case Proceed(decided) =>
        match Enter(GatesOf(HooksOf(ps), BeforeSessionMint), o, decided)
        case Refused(code, left) => (PolicyRefused(code), left)
        case Allowed(_, ready) => Minted(c, supply, o, ready, now)
  }

  class SignInService<C, X> {
    const config: Config
    const hooks: AuthHooks<C, CompleteOptions, World<X>>
    const decide: Option<Decider<CompleteOptions, World<X>>>
    ghost const plugins: seq<Contribution<C, X>>
    var world: World<X>

    ghost predicate Valid() {
      hooks == Installed(HooksOf(plugins)) && decide == InstalledPipeline(DecidersOf(plugins))
    }

    constructor (config: Config, plugins: seq<Contribution<C, X>>, world: World<X>)
      ensures Valid() && this.plugins == plugins && this.world == world && this.config == config
    {
      this.config := config;
      this.hooks := Installed(HooksOf(plugins));
      this.decide := InstalledPipeline(DecidersOf(plugins));
      this.plugins := plugins;
      this.world := world;
    }

    /** The composed hooks and pipeline do what the plugins would, entered one by one. */
    method CompleteSignIn(supply: Supply, o: CompleteOptions, now: int) returns (result: SignInResult)
      requires Valid()
      modifies this
      ensures (result, world) == CompleteInOrder(config, supply, plugins, o, old(world), now)
    {
      hide Installed, InstalledPipeline, Enter, Decide, Minted;
      ghost var ps, start := plugins, world;
      if hooks.beforeSessionCreate.Some? {
        var verdict := hooks.beforeSessionCreate.value(o, world);
        world := verdict.world;
        if verdict.Refused? {
          AsPlugins(ps, o, start);
          return PolicyRefused(verdict.code);
        }
      }
      AsPlugins(ps, o, start);
      AsPlugins(ps, o, world);
      ghost var admitted := world;
      if decide.Some? {
        var decision := decide.value(o, world);
        world := decision.world;
        if decision.Challenge? {
          return Challenged(decision.kind, decision.available, decision.token, decision.expiresAt);
        }
        if decision.Declined? {
          return PolicyRefused(decision.code);
        }
      }
      AsPlugins(ps, o, world);
      ghost var decided := world;
      if hooks.beforeSessionMint.Some? {
        var verdict := hooks.beforeSessionMint.value(o, world);
        world := verdict.world;
        if verdict.Refused? {
          return PolicyRefused(verdict.code);
        }
      }
      var (r, ready) := Minted(config, supply, o, world, now);
      result, world := r, ready;
    }
  }

  lemma AsPlugins<C, X>(ps: seq<Contribution<C, X>>, o: CompleteOptions, w: World<X>)
    ensures Ask(Installed(HooksOf(ps)).beforeSessionCreate, o, w)
            == Enter(GatesOf(HooksOf(ps), BeforeSessionCreate), o, w)
    ensures Ask(Installed(HooksOf(ps)).beforeSessionMint, o, w) == Enter(GatesOf(HooksOf(ps), BeforeSessionMint), o, w)
    ensures Consult(InstalledPipeline(DecidersOf(ps)), o, w) == Decide(DecidersOf(ps), o, w)
  {
    GatesInOrder(HooksOf(ps), BeforeSessionCreate, o, w);
    GatesInOrder(HooksOf(ps), BeforeSessionMint, o, w);
    PipelineInOrder(DecidersOf(ps), o, w);
  }

  // ---------------------------------------------------------------------------
  // Exactly one row and one event, or neither
  // ---------------------------------------------------------------------------

  /**
    Plugins that mint no session and publish no sign-in of their own. They may
    delete sessions, as merging a visitor away does.
   */
  ghost predicate OnlyRemove<C, X(!new)>(ps: seq<Contribution<C, X>>) {
    forall i, o: CompleteOptions, w: World<X> :: 0 <= i < |ps| ==> Removes(ps[i], o, w)
  }

  predicate Removes<C, X>(p: Contribution<C, X>, o: CompleteOptions, w: World<X>) {
    && Fewer(Ask(p.hooks.beforeSessionCreate, o, w).world, w)
    && Fewer(Ask(p.hooks.beforeSessionMint, o, w).world, w)
    && Fewer(Consult(p.decide, o, w).world, w)
  }

  /** The same events, and no session that was not there. */
  predicate Fewer<X>(v: World<X>, w: World<X>) {
    v.events == w.events && forall id :: id in v.sessions ==> id in w.sessions && v.sessions[id] == w.sessions[id]
  }

  /** On `Complete` one row and one event, with the row's own log, are all that is added; otherwise nothing is. */
  lemma OneRowOneEvent<C, X(!new)>(c: Config, supply: Supply, ps: seq<Contribution<C, X>>, o: CompleteOptions,
                                   w: World<X>, now: int)
    requires OnlyRemove(ps) && Fresh(supply)
    ensures var (r, end) := CompleteInOrder(c, supply, ps, o, w, now);
            if r.Complete? then
              && r.session.id in end.sessions && end.sessions[r.session.id] == r.session
              && (forall id :: id in end.sessions && id != r.session.id ==>
                    id in w.sessions && end.sessions[id] == w.sessions[id]
                      && end.sessions[id].tokenHash != r.session.tokenHash)
              && end.events == w.events + [SignedIn(o.userId, r.session.id, MethodOf(o.source), r.session.methods)]
              && r.session.tokenHash == Sha256(r.token) && r.session.aal == DeriveAal(r.session.methods)
              && r.session.methods == StampAll(o.evidence, now) && r.session.userId == r.userId == o.userId
              && r.session.authenticatedAt == now && (r.session.rememberMe <==> o.rememberMe != Some(false))
              && r.session.expiresAt - now
                 == (if o.rememberMe != Some(false) then c.expiresIn else c.rememberMeDisabledExpiresIn)
            else Fewer(end, w)
  {
    hide DeriveAal, StampAll;
    forall i, v: World<X> | 0 <= i < |ps|
      ensures Fewer(Ask(GatesOf(HooksOf(ps), BeforeSessionCreate)[i], o, v).world, v)
      ensures Fewer(Ask(GatesOf(HooksOf(ps), BeforeSessionMint)[i], o, v).world, v)
      ensures Fewer(Consult(DecidersOf(ps)[i], o, v).world, v)
    {
      assert Removes(ps[i], o, v);
    }
    GatesRemove(GatesOf(HooksOf(ps), BeforeSessionCreate), o, w);
    var admitted := Enter(GatesOf(HooksOf(ps), BeforeSessionCreate), o, w).world;
    DecidersRemove(DecidersOf(ps), o, admitted);
    var decided := Decide(DecidersOf(ps), o, admitted).world;
    GatesRemove(GatesOf(HooksOf(ps), BeforeSessionMint), o, decided);
  }

  lemma {:induction false} GatesRemove<X(!new)>(gates: seq<Option<Gate<CompleteOptions, World<X>>>>,
                                                o: CompleteOptions, w: World<X>)
    requires forall i, v: World<X> :: 0 <= i < |gates| ==> Fewer(Ask(gates[i], o, v).world, v)
    ensures Fewer(Enter(gates, o, w).world, w)
    decreases |gates|
  {
    if gates != [] {
      assert Fewer(Ask(gates[0], o, w).world, w);
      forall i, v: World<X> | 0 <= i < |gates[1..]| ensures Fewer(Ask(gates[1..][i], o, v).world, v) {
        assert gates[1..][i] == gates[i + 1];
      }
      GatesRemove(gates[1..], o, Ask(gates[0], o, w).world);
    }
  }

  lemma {:induction false} DecidersRemove<X(!new)>(deciders: seq<Option<Decider<CompleteOptions, World<X>>>>,
                                                   o: CompleteOptions, w: World<X>)
    requires forall i, v: World<X> :: 0 <= i < |deciders| ==> Fewer(Consult(deciders[i], o, v).world, v)
    ensures Fewer(Decide(deciders, o, w).world, w)
    decreases |deciders|
  {
    if deciders != [] {
      assert Fewer(Consult(deciders[0], o, w).world, w);
      forall i, v: World<X> | 0 <= i < |deciders[1..]| ensures Fewer(Consult(deciders[1..][i], o, v).world, v) {
        assert deciders[1..][i] == deciders[i + 1];
      }
      DecidersRemove(deciders[1..], o, Consult(deciders[0], o, w).world);
    }
  }

  /**
    What looking into a merge comes to: nothing to merge, a refusal, or the visitor merged and
    the rest of the world after it.
   */
  datatype MergeOutcome<+X> = NothingToMerge | MergeRefused(code: string) | Merged(rest: X)

  /** A mint hook that merges: the visitor's sessions go with the visitor. */
  function MergeGate<X>(merge: (CompleteOptions, X) -> MergeOutcome<X>): Gate<CompleteOptions, World<X>> {
    (o: CompleteOptions, w: World<X>) => MergeVerdict(merge, o, w)
  }

  function MergeVerdict<X>(merge: (CompleteOptions, X) -> MergeOutcome<X>, o: CompleteOptions, w: World<X>)
      : Verdict<(), World<X>> {
    if o.current.None? || o.current.value.userId == o.userId then Allowed((), w)
    else match merge(o, w.other)
      case NothingToMerge => Allowed((), w)
      case MergeRefused(code) => Refused(code, w)
      case Merged(rest) =>
        Allowed((), World(Without(w.sessions, OfUser(w.sessions, o.current.value.userId)), w.events, rest))
  }

  lemma Merges<X>(merge: (CompleteOptions, X) -> MergeOutcome<X>, o: CompleteOptions, w: World<X>)
    ensures MergeGate(merge)(o, w) == MergeVerdict(merge, o, w)
    ensures Fewer(MergeVerdict(merge, o, w).world, w)
  {
  }

  /**
    The merge hook leaves alone whoever signs in with no session, or as who they are. Otherwise a
    refusal is the sign-in's, and a merge takes the visitor's sessions and nobody else's.
   */
  lemma MergeTakesTheVisitors<X>(merge: (CompleteOptions, X) -> MergeOutcome<X>, o: CompleteOptions, w: World<X>,
                                 id: nat)
    ensures var verdict := MergeGate(merge)(o, w);
            if o.current.None? || o.current.value.userId == o.userId || merge(o, w.other).NothingToMerge? then
              verdict == Allowed((), w)
            else if merge(o, w.other).MergeRefused? then verdict == Refused(merge(o, w.other).code, w)
            else
              && verdict.Allowed? && verdict.world.other == merge(o, w.other).rest && verdict.world.events == w.events
              && (id in verdict.world.sessions <==> id in w.sessions && w.sessions[id].userId != o.current.value.userId)
              && (id in verdict.world.sessions ==> verdict.world.sessions[id] == w.sessions[id])
  {
  }

  /** The library's own merge hook is such a plugin, so the result above covers a deployment that installs it. */
  lemma MergingOnlyRemoves<C, X(!new)>(merge: (CompleteOptions, X) -> MergeOutcome<X>, p: Contribution<C, X>)
    requires p.hooks == NoHooks<C, CompleteOptions, World<X>>().(beforeSessionMint := Some(MergeGate(merge)))
             && p.decide.None?
    ensures OnlyRemove([p])
  {
    forall o: CompleteOptions, w: World<X> ensures Removes(p, o, w) {
      Merges(merge, o, w);
    }
  }

  /**
    Mint hooks, which may destroy things, have no say and no effect in a sign-in that is refused
    or challenged before them.
   */
  lemma MintHooksOnlyWhenProceeding<C, X>(c: Config, supply: Supply, ps: seq<Contribution<C, X>>,
                                          qs: seq<Contribution<C, X>>, o: CompleteOptions, w: World<X>, now: int)
    requires GatesOf(HooksOf(ps), BeforeSessionCreate) == GatesOf(HooksOf(qs), BeforeSessionCreate)
             && DecidersOf(ps) == DecidersOf(qs)
    requires Enter(GatesOf(HooksOf(ps), BeforeSessionCreate), o, w).Refused?
          || !Decide(DecidersOf(ps), o, Enter(GatesOf(HooksOf(ps), BeforeSessionCreate), o, w).world).Proceed?
    ensures CompleteInOrder(c, supply, ps, o, w, now) == CompleteInOrder(c, supply, qs, o, w, now)
    ensures !CompleteInOrder(c, supply, ps, o, w, now).0.Complete?
  {
  }
}
