/**
  What a session has proved: the authentication log, the level derived from it,
  and the RFC 8176 method references published for it.
 */
module Assurance {
  import opened Prelude

  datatype Aal = Aal0 | Aal1 | Aal2 {
    function Rank(): nat { match this case Aal0 => 0 case Aal1 => 1 case Aal2 => 2 }
  }

  datatype Factor = Knowledge | Possession | Inherence | NoFactor

  datatype AuthenticationMethod = AuthenticationMethod(
    name: string, completedAt: int, factor: Factor, phishingResistant: bool, restricted: bool,
    userVerified: Option<bool>)

  /** Entries that proved something: a trusted-device skip did not. */
  function Live(methods: seq<AuthenticationMethod>): (r: seq<AuthenticationMethod>)
    ensures forall e :: e in r <==> e in methods && !e.factor.NoFactor?
  {
    if methods == [] then []
    else
      assert methods == [methods[0]] + methods[1..];
      (if methods[0].factor.NoFactor? then [] else [methods[0]]) + Live(methods[1..])
  }

  predicate IsMultiFactorCeremony(e: AuthenticationMethod) { e.userVerified == Some(true) }

  function DeriveAal(methods: seq<AuthenticationMethod>): Aal {
    var counted := Live(methods);
    if |counted| == 0 then Aal0
    else if exists e :: e in counted && IsMultiFactorCeremony(e) then Aal2
    else
      var factors := set e | e in counted :: e.factor;
      if |factors| >= 2 then Aal2 else Aal1
  }

  predicate Counts(methods: seq<AuthenticationMethod>, e: AuthenticationMethod) { e in methods && !e.factor.NoFactor? }

  /** The level in terms of the evidence alone: none, one kind, or two kinds (or one ceremony that is both). */
  lemma LevelExactly(methods: seq<AuthenticationMethod>)
    ensures DeriveAal(methods) == Aal0 <==> forall e :: !Counts(methods, e)
    ensures DeriveAal(methods) == Aal2 <==>
            || (exists e :: Counts(methods, e) && e.userVerified == Some(true))
            || (exists d, e :: Counts(methods, d) && Counts(methods, e) && d.factor != e.factor)
  {
    var counted := Live(methods);
    var factors := set e | e in counted :: e.factor;
    if e :| e in counted && IsMultiFactorCeremony(e) {
      assert Counts(methods, e) && e.userVerified == Some(true);
    }
    if |counted| > 0 {
      var first := counted[0];
      assert Counts(methods, first);
      if |factors| >= 2 {
        assert first.factor in factors;
        var other := OtherThan(factors, first.factor);
        var e :| e in counted && e.factor == other;
        assert Counts(methods, first) && Counts(methods, e);
      }
      forall d, e | Counts(methods, d) && Counts(methods, e) && d.factor != e.factor ensures |factors| >= 2 {
        assert {d.factor, e.factor} <= factors;
        SubsetSize({d.factor, e.factor}, factors);
      }
    }
  }

  lemma OtherThan(s: set<Factor>, f: Factor) returns (other: Factor)
    requires |s| >= 2
    ensures other in s && other != f
  {
    if s <= {f} {
      SubsetSize(s, {f});
      assert false;
    }
    other :| other in s && other != f;
  }

  lemma SubsetSize(a: set<Factor>, b: set<Factor>)
    requires a <= b
    ensures |a| <= |b|
  {
    if x :| x in a {
      SubsetSize(a - {x}, b - {x});
    }
  }

  /** More evidence never lowers the level, so neither order nor repetition matters to it. */
  lemma MoreEvidenceNeverLowers(a: seq<AuthenticationMethod>, b: seq<AuthenticationMethod>)
    requires forall e :: e in a ==> e in b
    ensures DeriveAal(a).Rank() <= DeriveAal(b).Rank()
    ensures (forall e :: e in b ==> e in a) ==> DeriveAal(a) == DeriveAal(b)
  {
    LevelExactly(a);
    LevelExactly(b);
    hide DeriveAal;
    assert forall e :: Counts(a, e) ==> Counts(b, e);
    if forall e :: e in b ==> e in a {
      assert forall e :: Counts(b, e) ==> Counts(a, e);
    }
  }

  // ---------------------------------------------------------------------------
  // RFC 8176 method references
  // ---------------------------------------------------------------------------

  function AmrEntriesOf(e: AuthenticationMethod): seq<string> {
    if e.name == "password" then ["pwd"]
    else if e.name == "totp" || e.name == "recoveryCode" then ["otp"]
    else if e.name == "emailOtp" || e.name == "magic-link" then ["otp", "mca"]
    else if e.name == "sms" then ["otp", "sms", "mca"]
    else if e.name == "passkey" then if e.userVerified == Some(true) then ["swk", "pop", "user"] else ["swk", "pop"]
    else []
  }

  /** A JavaScript `Set` keeps what is added in order of first arrival. */
  function Added(values: seq<string>, v: string): seq<string> { if v in values then values else values + [v] }

  predicate NoRepeats(values: seq<string>) {
    forall i, j :: 0 <= i < j < |values| ==> values[i] != values[j]
  }

  lemma NeverMfa(e: AuthenticationMethod)
    ensures "mfa" !in AmrEntriesOf(e)
  {
    forall v | v in AmrEntriesOf(e) ensures v != "mfa" {
      assert v in ["pwd", "otp", "mca", "sms", "swk", "pop", "user"];
      assert v[0] != 'm' || v[1] != 'f';
    }
  }

  predicate Contributes(methods: seq<AuthenticationMethod>, v: string) {
    exists i :: 0 <= i < |methods| && !methods[i].factor.NoFactor? && v in AmrEntriesOf(methods[i])
  }

  /** Evidence of one of these methods counts. */
  ghost predicate By(methods: seq<AuthenticationMethod>, names: set<string>) {
    exists e :: Counts(methods, e) && e.name in names
  }

  /** What each reference says of the evidence, read back. */
  lemma ReferencesMean(methods: seq<AuthenticationMethod>)
    ensures Contributes(methods, "pwd") <==> By(methods, {"password"})
    ensures Contributes(methods, "otp") <==> By(methods, {"totp", "recoveryCode", "emailOtp", "magic-link", "sms"})
    ensures Contributes(methods, "mca") <==> By(methods, {"emailOtp", "magic-link", "sms"})
    ensures Contributes(methods, "sms") <==> By(methods, {"sms"})
    ensures Contributes(methods, "swk") <==> By(methods, {"passkey"})
    ensures Contributes(methods, "pop") <==> By(methods, {"passkey"})
    ensures Contributes(methods, "user") <==>
              exists e :: Counts(methods, e) && e.name == "passkey" && e.userVerified == Some(true)
    ensures forall v :: Contributes(methods, v) ==> v in ["pwd", "otp", "mca", "sms", "swk", "pop", "user"]
  {
    hide AmrEntriesOf, Contributes, By, EntryMeans;
    CodesMean(methods);
    KeysMean(methods);
    UserMeans(methods);
    forall v | Contributes(methods, v) ensures v in ["pwd", "otp", "mca", "sms", "swk", "pop", "user"] {
      NoOthers(methods, v);
    }
  }

  lemma CodesMean(methods: seq<AuthenticationMethod>)
    ensures Contributes(methods, "otp") <==> By(methods, {"totp", "recoveryCode", "emailOtp", "magic-link", "sms"})
    ensures Contributes(methods, "mca") <==> By(methods, {"emailOtp", "magic-link", "sms"})
    ensures Contributes(methods, "sms") <==> By(methods, {"sms"})
  {
    hide AmrEntriesOf, Contributes, By;
    forall e ensures "otp" in AmrEntriesOf(e) <==> e.name in {"totp", "recoveryCode", "emailOtp", "magic-link", "sms"} {
      EntryIs(e);
    }
    ContributedBy(methods, "otp", {"totp", "recoveryCode", "emailOtp", "magic-link", "sms"});
    forall e ensures "mca" in AmrEntriesOf(e) <==> e.name in {"emailOtp", "magic-link", "sms"} {
      EntryIs(e);
    }
    ContributedBy(methods, "mca", {"emailOtp", "magic-link", "sms"});
    forall e ensures "sms" in AmrEntriesOf(e) <==> e.name in {"sms"} {
      EntryIs(e);
    }
    ContributedBy(methods, "sms", {"sms"});
  }

  lemma KeysMean(methods: seq<AuthenticationMethod>)
    ensures Contributes(methods, "pwd") <==> By(methods, {"password"})
    ensures Contributes(methods, "swk") <==> By(methods, {"passkey"})
    ensures Contributes(methods, "pop") <==> By(methods, {"passkey"})
  {
    hide AmrEntriesOf, Contributes, By;
    forall e ensures "pwd" in AmrEntriesOf(e) <==> e.name in {"password"} {
      EntryIs(e);
    }
    ContributedBy(methods, "pwd", {"password"});
    forall e ensures "swk" in AmrEntriesOf(e) <==> e.name in {"passkey"} {
      EntryIs(e);
    }
    ContributedBy(methods, "swk", {"passkey"});
    forall e ensures "pop" in AmrEntriesOf(e) <==> e.name in {"passkey"} {
      EntryIs(e);
    }
    ContributedBy(methods, "pop", {"passkey"});
  }

  lemma UserMeans(methods: seq<AuthenticationMethod>)
    ensures Contributes(methods, "user") <==>
              exists e :: Counts(methods, e) && e.name == "passkey" && e.userVerified == Some(true)
  {
    hide AmrEntriesOf;
    if Contributes(methods, "user") {
      var i :| 0 <= i < |methods| && !methods[i].factor.NoFactor? && "user" in AmrEntriesOf(methods[i]);
      EntryIs(methods[i]);
      assert Counts(methods, methods[i]);
    }
    if e :| e in methods && Counts(methods, e) && e.name == "passkey" && e.userVerified == Some(true) {
      EntryIs(e);
      var i :| 0 <= i < |methods| && methods[i] == e;
    }
  }

  lemma NoOthers(methods: seq<AuthenticationMethod>, v: string)
    requires Contributes(methods, v)
    ensures v in ["pwd", "otp", "mca", "sms", "swk", "pop", "user"]
  {
    hide AmrEntriesOf;
    var i :| 0 <= i < |methods| && !methods[i].factor.NoFactor? && v in AmrEntriesOf(methods[i]);
    EntryIs(methods[i]);
  }

  predicate EntryMeans(e: AuthenticationMethod) {
    var entries := AmrEntriesOf(e);
    && ("pwd" in entries <==> e.name in {"password"})
    && ("otp" in entries <==> e.name in {"totp", "recoveryCode", "emailOtp", "magic-link", "sms"})
    && ("mca" in entries <==> e.name in {"emailOtp", "magic-link", "sms"})
    && ("sms" in entries <==> e.name in {"sms"})
    && ("swk" in entries <==> e.name in {"passkey"})
    && ("pop" in entries <==> e.name in {"passkey"})
    && ("user" in entries <==> e.name == "passkey" && e.userVerified == Some(true))
    && forall v :: v in entries ==> v in ["pwd", "otp", "mca", "sms", "swk", "pop", "user"]
  }

  lemma EntryIs(e: AuthenticationMethod)
    ensures EntryMeans(e)
  {
    var all := ["pwd", "otp", "mca", "sms", "swk", "pop", "user"];
    assert forall i, j :: 0 <= i < j < 7 ==> all[i][0] != all[j][0] || all[i][1] != all[j][1];
  }

  lemma ContributedBy(methods: seq<AuthenticationMethod>, v: string, names: set<string>)
    requires forall e :: v in AmrEntriesOf(e) <==> e.name in names
    ensures Contributes(methods, v) <==> By(methods, names)
  {
    hide AmrEntriesOf;
    if Contributes(methods, v) {
      var i :| 0 <= i < |methods| && !methods[i].factor.NoFactor? && v in AmrEntriesOf(methods[i]);
      assert Counts(methods, methods[i]);
    }
    if e :| Counts(methods, e) && e.name in names {
      var i :| 0 <= i < |methods| && methods[i] == e;
      assert v in AmrEntriesOf(methods[i]);
    }
  }

  /** The values offered, entry after entry. */
  function Offered(methods: seq<AuthenticationMethod>): seq<string> {
    if methods == [] then [] else Offered(methods[..|methods| - 1]) + AmrEntriesOf(methods[|methods| - 1])
  }

  function Arrivals(offered: seq<string>): seq<string> {
    if offered == [] then [] else Added(Arrivals(offered[..|offered| - 1]), offered[|offered| - 1])
  }

  /** `v` was offered at `i`, and not before. */
  predicate FirstOffered(offered: seq<string>, v: string, i: int) {
    0 <= i < |offered| && offered[i] == v && forall k :: 0 <= k < i ==> offered[k] != v
  }

  /** The values that arrive are those offered, once each, in the order they were first offered. */
  lemma {:induction false} InOrderOfArrival(offered: seq<string>)
    ensures NoRepeats(Arrivals(offered)) && forall v :: v in Arrivals(offered) <==> v in offered
    ensures forall i, j, k, m | 0 <= i < j < |Arrivals(offered)| ::
              FirstOffered(offered, Arrivals(offered)[i], k) && FirstOffered(offered, Arrivals(offered)[j], m) ==> k < m
  {
    if offered != [] {
      var n := |offered| - 1;
      var before, values := Arrivals(offered[..n]), Arrivals(offered);
      InOrderOfArrival(offered[..n]);
      forall i, j, k, m | 0 <= i < j < |values| && FirstOffered(offered, values[i], k)
                          && FirstOffered(offered, values[j], m)
        ensures k < m
      {
        assert i < |before| && values[i] == before[i] && values[i] in offered[..n];
        if m < n {
          assert values[j] == offered[..n][m] && values[j] in before;
          assert FirstOffered(offered[..n], values[j], m);
          assert k < n ==> FirstOffered(offered[..n], values[i], k);
        }
      }
    }
  }

  lemma OfferedEntry(counted: seq<AuthenticationMethod>, i: nat, j: nat)
    requires i < |counted| && j < |AmrEntriesOf(counted[i])|
    ensures var entries, done := AmrEntriesOf(counted[i]), Offered(counted[..i]);
            Arrivals(done + entries[..j + 1]) == Added(Arrivals(done + entries[..j]), entries[j])
  {
    hide AmrEntriesOf, Offered;
    var entries, done := AmrEntriesOf(counted[i]), Offered(counted[..i]);
    var more := done + entries[..j + 1];
    assert more[..|more| - 1] == done + entries[..j] && more[|more| - 1] == entries[j];
  }

  lemma OfferedPrefix(counted: seq<AuthenticationMethod>, i: nat)
    requires i < |counted|
    ensures Offered(counted[..i + 1]) == Offered(counted[..i]) + AmrEntriesOf(counted[i])
  {
    assert counted[..i + 1][..i] == counted[..i];
  }

  lemma OfferedContributes(counted: seq<AuthenticationMethod>, v: string)
    requires forall e :: e in counted ==> !e.factor.NoFactor?
    ensures v in Offered(counted) <==> Contributes(counted, v)
  {
    hide AmrEntriesOf;
    if counted != [] {
      var n := |counted| - 1;
      OfferedContributes(counted[..n], v);
      assert counted[..n + 1] == counted;
      ContributesOneMore(counted, n);
    }
  }

  /**
    No repeats, in the order the methods first offered them, exactly what the evidence
    contributes, and `mfa` last exactly at the second level.
   */
  method AmrOf(methods: seq<AuthenticationMethod>) returns (values: seq<string>)
    ensures NoRepeats(values)
    ensures forall v :: v in values <==> Contributes(methods, v) || (v == "mfa" && DeriveAal(methods) == Aal2)
    ensures values == Arrivals(Offered(Live(methods))) + (if DeriveAal(methods) == Aal2 then ["mfa"] else [])
  {
    hide DeriveAal, AmrEntriesOf, Offered, Contributes;
    values := [];
    var counted := Live(methods);
    assert counted[..0] == [] && Offered([]) == [] by {
      NothingOffered();
    }
    for i := 0 to |counted|
      invariant values == Arrivals(Offered(counted[..i]))
    {
      var entries := AmrEntriesOf(counted[i]);
      ghost var done := Offered(counted[..i]);
      assert done + entries[..0] == done;
      for j := 0 to |entries|
        invariant values == Arrivals(done + entries[..j])
      {
        OfferedEntry(counted, i, j);
        values := Added(values, entries[j]);
      }
      assert entries[..|entries|] == entries;
      OfferedPrefix(counted, i);
    }
    assert counted[..|counted|] == counted;
    InOrderOfArrival(Offered(counted));
    SameContribution(counted, methods);
    forall v ensures v in values <==> Contributes(methods, v) {
      OfferedContributes(counted, v);
    }
    NotContributed(methods);
    if DeriveAal(methods) == Aal2 {
      values := Added(values, "mfa");
    }
  }

  lemma NothingOffered()
    ensures Offered([]) == []
  {
  }

  lemma NotContributed(methods: seq<AuthenticationMethod>)
    ensures !Contributes(methods, "mfa")
  {
    hide AmrEntriesOf;
    forall i | 0 <= i < |methods| ensures "mfa" !in AmrEntriesOf(methods[i]) {
      NeverMfa(methods[i]);
    }
  }

  lemma ContributesOneMore(counted: seq<AuthenticationMethod>, i: nat)
    requires i < |counted| && !counted[i].factor.NoFactor?
    ensures forall v :: Contributes(counted[..i + 1], v) <==>
              Contributes(counted[..i], v) || v in AmrEntriesOf(counted[i])
  {
    hide AmrEntriesOf;
    forall v | Contributes(counted[..i], v) || v in AmrEntriesOf(counted[i]) ensures Contributes(counted[..i + 1], v) {
      if Contributes(counted[..i], v) {
        var k :| 0 <= k < i && !counted[..i][k].factor.NoFactor? && v in AmrEntriesOf(counted[..i][k]);
        assert counted[..i + 1][k] == counted[..i][k];
      } else {
        assert counted[..i + 1][i] == counted[i];
      }
    }
    forall v | Contributes(counted[..i + 1], v) ensures Contributes(counted[..i], v) || v in AmrEntriesOf(counted[i]) {
      var k :| 0 <= k <= i && !counted[..i + 1][k].factor.NoFactor? && v in AmrEntriesOf(counted[..i + 1][k]);
      assert k < i ==> counted[..i][k] == counted[..i + 1][k];
    }
  }

  lemma SameContribution(a: seq<AuthenticationMethod>, b: seq<AuthenticationMethod>)
    requires forall e :: Counts(a, e) <==> Counts(b, e)
    ensures forall v :: Contributes(a, v) <==> Contributes(b, v)
  {
    hide AmrEntriesOf;
    Carried(a, b);
    Carried(b, a);
  }

  lemma Carried(a: seq<AuthenticationMethod>, b: seq<AuthenticationMethod>)
    requires forall e :: Counts(a, e) ==> Counts(b, e)
    ensures forall v :: Contributes(a, v) ==> Contributes(b, v)
  {
    hide AmrEntriesOf;
    forall v | Contributes(a, v) ensures Contributes(b, v) {
      var i :| 0 <= i < |a| && !a[i].factor.NoFactor? && v in AmrEntriesOf(a[i]);
      assert Counts(b, a[i]);
      var j :| 0 <= j < |b| && b[j] == a[i];
    }
  }
}
