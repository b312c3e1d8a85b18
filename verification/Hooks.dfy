/**
  Deployment hooks as state-passing functions, and their composition: each hook
  sees the world the one before it left, and the first refusal is the last hook
  entered. An absent hook stays absent.
 */
module Hooks {
  import opened Prelude

  datatype Verdict<+A, +W> = Allowed(value: A, world: W) | Refused(code: string, world: W)

  type Gate<!O, !W> = (O, W) -> Verdict<(), W>

  type Rewrite<!C, !W> = (C, W) -> Verdict<C, W>

  /** The seven hooks: one rewrites the candidate user, the others allow or refuse an occasion `O`. */
  datatype AuthHooks<!C, !O, !W> = AuthHooks(
    beforeUserCreate: Option<Rewrite<C, W>>,
    afterUserCreate: Option<Gate<O, W>>,
    beforeSessionCreate: Option<Gate<O, W>>,
    beforeSessionMint: Option<Gate<O, W>>,
    beforeEmailChange: Option<Gate<O, W>>,
    beforeUserDelete: Option<Gate<O, W>>,
    beforeAccountLink: Option<Gate<O, W>>)

  /** `{}`. */
  function NoHooks<C, O, W>(): AuthHooks<C, O, W> { AuthHooks(None, None, None, None, None, None, None) }

  function Sequence<O, W>(first: Option<Gate<O, W>>, second: Option<Gate<O, W>>): Option<Gate<O, W>> {
    if first.None? then second
    else if second.None? then first
    else Some((o: O, w: W) => match first.value(o, w)
                              case Refused(code, v) => Refused(code, v)
                              case Allowed(_, v) => second.value(o, v))
  }

  function Chain<C, W>(first: Option<Rewrite<C, W>>, second: Option<Rewrite<C, W>>): Option<Rewrite<C, W>> {
    if first.None? then second
    else if second.None? then first
    else Some((candidate: C, w: W) => match first.value(candidate, w)
                                      case Refused(code, v) => Refused(code, v)
                                      case Allowed(rewritten, v) => second.value(rewritten, v))
  }

  function Combine<C, O, W>(a: AuthHooks<C, O, W>, b: AuthHooks<C, O, W>): AuthHooks<C, O, W> {
    AuthHooks(
      Chain(a.beforeUserCreate, b.beforeUserCreate),
      Sequence(a.afterUserCreate, b.afterUserCreate),
      Sequence(a.beforeSessionCreate, b.beforeSessionCreate),
      Sequence(a.beforeSessionMint, b.beforeSessionMint),
      Sequence(a.beforeEmailChange, b.beforeEmailChange),
      Sequence(a.beforeUserDelete, b.beforeUserDelete),
      Sequence(a.beforeAccountLink, b.beforeAccountLink))
  }

  // ---------------------------------------------------------------------------
  // A monoid
  // ---------------------------------------------------------------------------

  ghost predicate SameGate<O(!new), W(!new)>(a: Option<Gate<O, W>>, b: Option<Gate<O, W>>) {
    a.Some? == b.Some? && (a.Some? ==> forall o: O, w: W :: a.value(o, w) == b.value(o, w))
  }

  ghost predicate SameRewrite<C(!new), W(!new)>(a: Option<Rewrite<C, W>>, b: Option<Rewrite<C, W>>) {
    a.Some? == b.Some? && (a.Some? ==> forall c: C, w: W :: a.value(c, w) == b.value(c, w))
  }

  /** The same hooks declared, each answering alike on every occasion in every world. */
  ghost predicate SameHooks<C(!new), O(!new), W(!new)>(a: AuthHooks<C, O, W>, b: AuthHooks<C, O, W>) {
    && SameRewrite(a.beforeUserCreate, b.beforeUserCreate)
    && SameGate(a.afterUserCreate, b.afterUserCreate)
    && SameGate(a.beforeSessionCreate, b.beforeSessionCreate)
    && SameGate(a.beforeSessionMint, b.beforeSessionMint)
    && SameGate(a.beforeEmailChange, b.beforeEmailChange)
    && SameGate(a.beforeUserDelete, b.beforeUserDelete)
    && SameGate(a.beforeAccountLink, b.beforeAccountLink)
  }

  lemma HooksMonoid<C(!new), O(!new), W(!new)>(a: AuthHooks<C, O, W>, b: AuthHooks<C, O, W>, c: AuthHooks<C, O, W>)
    ensures Combine(NoHooks(), a) == a && Combine(a, NoHooks()) == a
    ensures SameHooks(Combine(Combine(a, b), c), Combine(a, Combine(b, c)))
  {
    ChainAssociates(a.beforeUserCreate, b.beforeUserCreate, c.beforeUserCreate);
    SequenceAssociates(a.afterUserCreate, b.afterUserCreate, c.afterUserCreate);
    SequenceAssociates(a.beforeSessionCreate, b.beforeSessionCreate, c.beforeSessionCreate);
    SequenceAssociates(a.beforeSessionMint, b.beforeSessionMint, c.beforeSessionMint);
    SequenceAssociates(a.beforeEmailChange, b.beforeEmailChange, c.beforeEmailChange);
    SequenceAssociates(a.beforeUserDelete, b.beforeUserDelete, c.beforeUserDelete);
    SequenceAssociates(a.beforeAccountLink, b.beforeAccountLink, c.beforeAccountLink);
    hide SameGate, SameRewrite;
  }

  lemma SequenceAssociates<O(!new), W(!new)>(a: Option<Gate<O, W>>, b: Option<Gate<O, W>>, c: Option<Gate<O, W>>)
    ensures SameGate(Sequence(Sequence(a, b), c), Sequence(a, Sequence(b, c)))
  {
  }

  lemma ChainAssociates<C(!new), W(!new)>(a: Option<Rewrite<C, W>>, b: Option<Rewrite<C, W>>, c: Option<Rewrite<C, W>>)
    ensures SameRewrite(Chain(Chain(a, b), c), Chain(a, Chain(b, c)))
  {
  }

  // ---------------------------------------------------------------------------
  // Any list of plugins
  // ---------------------------------------------------------------------------

  /** What `append` installs, plugin after plugin. */
  function Installed<C, O, W>(plugins: seq<AuthHooks<C, O, W>>): AuthHooks<C, O, W>
    decreases |plugins|
  {
    if plugins == [] then NoHooks() else Combine(Installed(plugins[..|plugins| - 1]), plugins[|plugins| - 1])
  }

  /** The reference: enter the gates that exist one by one, until one refuses. */
  function Enter<O, W>(gates: seq<Option<Gate<O, W>>>, o: O, w: W): Verdict<(), W>
    decreases |gates|
  {
    if gates == [] then Allowed((), w)
    else if gates[0].None? then Enter(gates[1..], o, w)
    else match gates[0].value(o, w)
      case Refused(code, v) => Refused(code, v)
      case Allowed(_, v) => Enter(gates[1..], o, v)
  }

  function Thread<C, W>(rewrites: seq<Option<Rewrite<C, W>>>, c: C, w: W): Verdict<C, W>
    decreases |rewrites|
  {
    if rewrites == [] then Allowed(c, w)
    else if rewrites[0].None? then Thread(rewrites[1..], c, w)
    else match rewrites[0].value(c, w)
      case Refused(code, v) => Refused(code, v)
      case Allowed(rewritten, v) => Thread(rewrites[1..], rewritten, v)
  }

  /** An optional gate as its caller runs it: absent means allowed. */
  function Ask<O, W>(gate: Option<Gate<O, W>>, o: O, w: W): Verdict<(), W> {
    if gate.None? then Allowed((), w) else gate.value(o, w)
  }

  function Offer<C, W>(rewrite: Option<Rewrite<C, W>>, c: C, w: W): Verdict<C, W> {
    if rewrite.None? then Allowed(c, w) else rewrite.value(c, w)
  }

  /** A refusal in a first part is final: nothing after it is entered, so nothing after it can matter. */
  lemma {:induction false} EnterSplit<O, W>(a: seq<Option<Gate<O, W>>>, b: seq<Option<Gate<O, W>>>, o: O, w: W)
    ensures Enter(a + b, o, w) == if Enter(a, o, w).Refused? then Enter(a, o, w) else Enter(b, o, Enter(a, o, w).world)
    decreases |a|
  {
    if a == [] {
      assert a + b == b;
    } else {
      assert (a + b)[1..] == a[1..] + b;
      EnterSplit(a[1..], b, o, if a[0].None? then w else a[0].value(o, w).world);
    }
  }

  lemma {:induction false} ThreadSplit<C, W>(a: seq<Option<Rewrite<C, W>>>, b: seq<Option<Rewrite<C, W>>>, c: C, w: W)
    ensures Thread(a + b, c, w) == if Thread(a, c, w).Refused? then Thread(a, c, w)
            else Thread(b, Thread(a, c, w).value, Thread(a, c, w).world)
    decreases |a|
  {
    if a == [] {
      assert a + b == b;
    } else {
      assert (a + b)[1..] == a[1..] + b;
      if a[0].None? {
        ThreadSplit(a[1..], b, c, w);
      } else if a[0].value(c, w).Allowed? {
        ThreadSplit(a[1..], b, a[0].value(c, w).value, a[0].value(c, w).world);
      }
    }
  }

  lemma AskSequence<O, W>(a: Option<Gate<O, W>>, b: Option<Gate<O, W>>, o: O, w: W)
    ensures Enter([b], o, w) == Ask(b, o, w)
    ensures Ask(Sequence(a, b), o, w) == if Ask(a, o, w).Refused? then Ask(a, o, w) else Ask(b, o, Ask(a, o, w).world)
  {
    assert [b][1..] == [];
    if a.Some? && a.value(o, w).Allowed? {
      assert a.value(o, w).value == ();
    }
    if b.Some? && b.value(o, w).Allowed? {
      assert b.value(o, w).value == ();
    }
  }

  function Creates<C, O, W>(ps: seq<AuthHooks<C, O, W>>): seq<Option<Rewrite<C, W>>> {
    seq(|ps|, i requires 0 <= i < |ps| => ps[i].beforeUserCreate)
  }

  /** Which of the six gates. */
  datatype Kind =
    | AfterUserCreate | BeforeSessionCreate | BeforeSessionMint | BeforeEmailChange | BeforeUserDelete
    | BeforeAccountLink

  function GateOf<C, O, W>(hooks: AuthHooks<C, O, W>, kind: Kind): Option<Gate<O, W>> {
    match kind
    case AfterUserCreate => hooks.afterUserCreate
    case BeforeSessionCreate => hooks.beforeSessionCreate
    case BeforeSessionMint => hooks.beforeSessionMint
    case BeforeEmailChange => hooks.beforeEmailChange
    case BeforeUserDelete => hooks.beforeUserDelete
    case BeforeAccountLink => hooks.beforeAccountLink
  }

  function GatesOf<C, O, W>(ps: seq<AuthHooks<C, O, W>>, kind: Kind): seq<Option<Gate<O, W>>> {
    seq(|ps|, i requires 0 <= i < |ps| => GateOf(ps[i], kind))
  }

  /**
    Whatever was installed, of each kind, behaves as its plugins entered in order, and exists
    exactly when one declares it.
   */
  lemma {:induction false} GatesInOrder<C, O, W>(ps: seq<AuthHooks<C, O, W>>, kind: Kind, o: O, w: W)
    ensures Ask(GateOf(Installed(ps), kind), o, w) == Enter(GatesOf(ps, kind), o, w)
    ensures GateOf(Installed(ps), kind).Some? <==> exists i :: 0 <= i < |ps| && GateOf(ps[i], kind).Some?
    decreases |ps|
  {
    if ps != [] {
      var init, last := ps[..|ps| - 1], ps[|ps| - 1];
      GatesInOrder(init, kind, o, w);
      assert GatesOf(ps, kind) == GatesOf(init, kind) + [GateOf(last, kind)];
      AskSequence(GateOf(Installed(init), kind), GateOf(last, kind), o, w);
      AskSequence(None, GateOf(last, kind), o, Enter(GatesOf(init, kind), o, w).world);
      EnterSplit(GatesOf(init, kind), [GateOf(last, kind)], o, w);
      assert GateOf(Installed(ps), kind) == Sequence(GateOf(Installed(init), kind), GateOf(last, kind));
      assert forall i :: 0 <= i < |init| ==> init[i] == ps[i];
    }
  }

  /** The candidate is threaded through every rewrite in order, up to the first refusal. */
  lemma {:induction false} CandidateThreaded<C, O, W>(ps: seq<AuthHooks<C, O, W>>, candidate: C, w: W)
    ensures Offer(Installed(ps).beforeUserCreate, candidate, w) == Thread(Creates(ps), candidate, w)
    ensures Installed(ps).beforeUserCreate.Some? <==> exists i :: 0 <= i < |ps| && ps[i].beforeUserCreate.Some?
    decreases |ps|
  {
    if ps != [] {
      var init, last := ps[..|ps| - 1], ps[|ps| - 1];
      CandidateThreaded(init, candidate, w);
      assert Creates(ps) == Creates(init) + [last.beforeUserCreate];
      ThreadSplit(Creates(init), [last.beforeUserCreate], candidate, w);
      assert forall i :: 0 <= i < |init| ==> init[i] == ps[i];
    }
  }
}
