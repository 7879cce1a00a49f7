/** The rules about provider claims: several providers report on one indicator,
    and their claims disagree (crates/correlation/src/rules/providers.rs). */
module Providers {
  import opened Results
  import opened Ordering
  import opened Model
  import opened Index
  import opened IndexFacts
  import opened CorrelationIds
  import opened Drafts
  import opened Emissions

  function ClaimsOf(os: seq<Observation>): (r: seq<ProviderClaim>)
  {
    if os == [] then []
    else (match ClaimOf(os[0]) case Some(c) => [c] case None => []) + ClaimsOf(os[1..])
  }

  function ProvidersOf(claims: seq<ProviderClaim>): (r: set<SourceId>)
  {
    set c | c in claims :: c.provider
  }

  predicate Denies(c: ProviderClaim)
  {
    c.stance.DoesNotFlag? || c.stance.NoRecord?
  }

  function Flagging(claims: seq<ProviderClaim>): (r: seq<ProviderClaim>)
  {
    Filter(claims, (c: ProviderClaim) => c.stance.Flags?)
  }

  function Denying(claims: seq<ProviderClaim>): (r: seq<ProviderClaim>)
  {
    Filter(claims, (c: ProviderClaim) => Denies(c))
  }

  function Except(claims: seq<ProviderClaim>, providers: set<SourceId>): (r: seq<ProviderClaim>)
  {
    Filter(claims, (c: ProviderClaim) => c.provider !in providers)
  }

  function By(claims: seq<ProviderClaim>, provider: SourceId): (r: seq<ProviderClaim>)
  {
    Filter(claims, (c: ProviderClaim) => c.provider == provider)
  }

  function Involving(claims: seq<ProviderClaim>, ids: set<ObservationId>): (r: seq<ProviderClaim>)
  {
    Filter(claims, (c: ProviderClaim) => c.observation in ids)
  }

  // ---------------------------------------------------------------- conflicts

  /** Denials by providers that flag nothing. */
  function Across(claims: seq<ProviderClaim>): (r: seq<ProviderClaim>)
  {
    Except(Denying(claims), ProvidersOf(Flagging(claims)))
  }

  function AcrossConflict(indicator: Indicator, claims: seq<ProviderClaim>): (r: seq<Conflict>)
  {
    var flags, across := Flagging(claims), Across(claims);
    if flags != [] && across != [] then
      [Conflict(ProvidersDisagree(indicator, ProvidersOf(flags), ProvidersOf(across)), ClaimIds(flags + across))]
    else []
  }

  function StancesOf(claims: seq<ProviderClaim>, provider: SourceId): (r: set<Stance>)
  {
    set c | c in claims && c.provider == provider && !c.stance.Unclear? :: c.stance
  }

  function ClearProviders(claims: seq<ProviderClaim>): (r: set<SourceId>)
  {
    set c | c in claims && !c.stance.Unclear? :: c.provider
  }

  ghost function PerProvider(claims: seq<ProviderClaim>): (m: map<SourceId, set<Stance>>)
  {
    map p | p in ClearProviders(claims) :: StancesOf(claims, p)
  }

  function NoteStance(m: map<SourceId, set<Stance>>, c: ProviderClaim): (r: map<SourceId, set<Stance>>)
  {
    if c.stance.Unclear? then m else m[c.provider := (if c.provider in m then m[c.provider] else {}) + {c.stance}]
  }

  lemma PerProviderStep(claims: seq<ProviderClaim>, c: ProviderClaim)
    ensures PerProvider(claims + [c]) == NoteStance(PerProvider(claims), c)
  {
    var next, goal := PerProvider(claims + [c]), NoteStance(PerProvider(claims), c);
    assert forall x :: x in claims + [c] <==> x in claims || x == c;
    assert ClearProviders(claims + [c]) == ClearProviders(claims) + (if c.stance.Unclear? then {} else {c.provider});
    assert next.Keys == goal.Keys;
    forall p | p in next ensures next[p] == goal[p] {
      assert StancesOf(claims + [c], p)
          == StancesOf(claims, p) + (if p == c.provider && !c.stance.Unclear? then {c.stance} else {});
      if p !in ClearProviders(claims) { assert StancesOf(claims, p) == {}; }
    }
  }

  method CollectStances(claims: seq<ProviderClaim>) returns (m: map<SourceId, set<Stance>>)
    ensures m == PerProvider(claims)
  {
    m := map[];
    for i := 0 to |claims|
      invariant m == PerProvider(claims[..i])
    {
      var c := claims[i];
      PerProviderStep(claims[..i], c);
      assert claims[..i + 1] == claims[..i] + [c];
      if !c.stance.Unclear? { m := NoteStance(m, c); }
    }
    assert claims[..|claims|] == claims;
  }

  function ProviderKey(p: SourceId): (k: Key) { [Codes(p)] }

  lemma ProviderKeyInjective(a: SourceId, b: SourceId)
    requires ProviderKey(a) == ProviderKey(b)
    ensures a == b
  {
    assert ProviderKey(a)[0] == ProviderKey(b)[0];
    CodesInjective(a, b);
  }

  function WithinConflicts(indicator: Indicator, claims: seq<ProviderClaim>, providers: seq<SourceId>, n: nat): (r: seq<Conflict>)
    requires n <= |providers|
  {
    if n == 0 then []
    else
      var p := providers[n - 1];
      WithinConflicts(indicator, claims, providers, n - 1)
      + (if |StancesOf(claims, p)| > 1
         then [Conflict(ProviderVaries(p, indicator, StancesOf(claims, p)), ClaimIds(By(claims, p)))] else [])
  }

  ghost function Disagreements(indicator: Indicator, claims: seq<ProviderClaim>): (r: seq<Conflict>)
  {
    var providers := Ascending(ClearProviders(claims), ProviderKey);
    AcrossConflict(indicator, claims) + WithinConflicts(indicator, claims, providers, |providers|)
  }

  method WithinOf(indicator: Indicator, claims: seq<ProviderClaim>, perProvider: map<SourceId, set<Stance>>,
                  providers: seq<SourceId>) returns (r: seq<Conflict>)
    requires perProvider == PerProvider(claims)
    requires forall i :: 0 <= i < |providers| ==> providers[i] in perProvider
    ensures r == WithinConflicts(indicator, claims, providers, |providers|)
  {
    r := [];
    for i := 0 to |providers|
      invariant r == WithinConflicts(indicator, claims, providers, i)
    {
      var p := providers[i];
      if |perProvider[p]| > 1 {
        r := r + [Conflict(ProviderVaries(p, indicator, perProvider[p]), ClaimIds(By(claims, p)))];
      }
    }
  }

  method ListProviders(providers: set<SourceId>) returns (r: seq<SourceId>)
    ensures r == Ascending(providers, ProviderKey)
  {
    forall a: SourceId, b: SourceId | ProviderKey(a) == ProviderKey(b) ensures a == b { ProviderKeyInjective(a, b); }
    r := ListAscending(providers, ProviderKey);
  }

  method FindWithin(indicator: Indicator, claims: seq<ProviderClaim>) returns (r: seq<Conflict>)
    ensures var providers := Ascending(ClearProviders(claims), ProviderKey);
            r == WithinConflicts(indicator, claims, providers, |providers|)
  {
    var perProvider := CollectStances(claims);
    assert perProvider.Keys == ClearProviders(claims);
    var providers := ListProviders(perProvider.Keys);
    assert forall i :: 0 <= i < |providers| ==> providers[i] in providers;
    r := WithinOf(indicator, claims, perProvider, providers);
  }

  // -------------------------------------------------------------------- rules

  function SeveralDraft(indicator: Indicator, claims: seq<ProviderClaim>): (d: Draft)
  {
    Draft([IndicatorEntity(indicator)], [], claims, [], [], [], [OwnClassifications])
  }

  function CitedIn(conflicts: seq<Conflict>): (r: set<ObservationId>)
  {
    set c, id | c in conflicts && id in c.evidence :: id
  }

  function DisagreementDraft(indicator: Indicator, claims: seq<ProviderClaim>, conflicts: seq<Conflict>): (d: Draft)
  {
    Draft([IndicatorEntity(indicator)], [], Involving(claims, CitedIn(conflicts)), [], conflicts, [],
          [OwnClassifications, NotResolved])
  }

  function SeveralFor(indicator: Indicator, claims: seq<ProviderClaim>): (r: Option<Draft>)
  {
    if |ProvidersOf(claims)| >= 2 then Some(SeveralDraft(indicator, claims)) else None
  }

  ghost function DisagreementFor(indicator: Indicator, claims: seq<ProviderClaim>): (r: Option<Draft>)
  {
    var conflicts := Disagreements(indicator, claims);
    if conflicts == [] then None else Some(DisagreementDraft(indicator, claims, conflicts))
  }

  ghost function EmittedFor(indicator: Indicator, os: seq<Observation>): (r: seq<Emission>)
  {
    var claims := ClaimsOf(os);
    if claims == [] then []
    else
      Emitting(MultipleSources, SeveralFor(indicator, claims))
      + Emitting(SourceDisagreement, DisagreementFor(indicator, claims))
  }

  ghost function EmittedUpTo(ix: EvidenceIndex, indicators: seq<Indicator>, n: nat): (r: seq<Emission>)
    requires n <= |indicators|
  {
    if n == 0 then []
    else EmittedUpTo(ix, indicators, n - 1) + EmittedFor(indicators[n - 1], ObservationsAbout(ix, indicators[n - 1]))
  }

  ghost function Emitted(ix: EvidenceIndex): (r: seq<Emission>)
  {
    var indicators := Ascending(ix.byIndicator.Keys, IndicatorKey);
    EmittedUpTo(ix, indicators, |indicators|)
  }

  method Disagreement(indicator: Indicator, claims: seq<ProviderClaim>, emit: Emit)
    requires emit.Valid()
    modifies emit
    ensures emit.Valid() && emit.log == old(emit.log) + Emitting(SourceDisagreement, DisagreementFor(indicator, claims))
  {
    var across := AcrossConflict(indicator, claims);
    var within := FindWithin(indicator, claims);
    var conflicts := across + within;
    if conflicts == [] { return; }
    emit.Push(SourceDisagreement, DisagreementDraft(indicator, claims, conflicts));
  }

  method ForIndicator(indicator: Indicator, os: seq<Observation>, emit: Emit)
    requires emit.Valid()
    modifies emit
    ensures emit.Valid() && emit.log == old(emit.log) + EmittedFor(indicator, os)
  {
    var claims := ClaimsOf(os);
    if claims == [] { return; }
    emit.PushIfAny(MultipleSources, SeveralFor(indicator, claims));
    Disagreement(indicator, claims, emit);
    Appends(old(emit.log), Emitting(MultipleSources, SeveralFor(indicator, claims)),
            Emitting(SourceDisagreement, DisagreementFor(indicator, claims)));
  }

  ghost function Parts(ix: EvidenceIndex, indicators: seq<Indicator>): (r: seq<seq<Emission>>)
  {
    seq(|indicators|, i requires 0 <= i < |indicators| => EmittedFor(indicators[i], ObservationsAbout(ix, indicators[i])))
  }

  ghost function Stages(ix: EvidenceIndex, indicators: seq<Indicator>): (r: seq<seq<Emission>>)
  {
    seq(|indicators| + 1, i requires 0 <= i <= |indicators| => EmittedUpTo(ix, indicators, i))
  }

  /** Indicator by indicator. */
  method ForEach(ix: EvidenceIndex, indicators: seq<Indicator>, emit: Emit,
                 ghost stages: seq<seq<Emission>>, ghost parts: seq<seq<Emission>>)
    requires emit.Valid() && |parts| == |indicators| && Staged(stages, parts)
    requires forall i :: 0 <= i < |indicators| ==> parts[i] == EmittedFor(indicators[i], ObservationsAbout(ix, indicators[i]))
    modifies emit
    ensures emit.Valid() && emit.log == old(emit.log) + stages[|indicators|]
  {
    ghost var before := emit.log;
    for i := 0 to |indicators|
      invariant emit.Valid() && emit.log == before + stages[i]
    {
      ForIndicator(indicators[i], ObservationsAbout(ix, indicators[i]), emit);
      Appends(before, stages[i], parts[i]);
    }
  }

  method Correlate(emit: Emit)
    requires emit.Valid()
    modifies emit
    ensures emit.Valid() && emit.log == old(emit.log) + Emitted(emit.ix)
  {
    var ix := emit.ix;
    forall a: Indicator, b: Indicator | IndicatorKey(a) == IndicatorKey(b) ensures a == b { IndicatorKeyInjective(a, b); }
    var indicators := ListAscending(ix.byIndicator.Keys, IndicatorKey);
    InStages(ix, indicators);
    ForEach(ix, indicators, emit, Stages(ix, indicators), Parts(ix, indicators));
  }

  // ------------------------------------------------------------------ meaning

  lemma {:induction false} ClaimMembers(os: seq<Observation>)
    ensures forall c :: c in ClaimsOf(os) <==> exists o :: o in os && ClaimOf(o) == Some(c)
  {
    if os != [] {
      ClaimMembers(os[1..]);
      assert os == [os[0]] + os[1..];
    }
  }

  lemma SelectionMembers(claims: seq<ProviderClaim>)
    ensures forall c :: c in Flagging(claims) <==> c in claims && c.stance.Flags?
    ensures forall c :: c in Denying(claims) <==> c in claims && Denies(c)
    ensures forall c :: c in Across(claims) <==> c in claims && Denies(c) && c.provider !in ProvidersOf(Flagging(claims))
  {
    FilterMembers(claims, (c: ProviderClaim) => c.stance.Flags?);
    FilterMembers(claims, (c: ProviderClaim) => Denies(c));
    var providers := ProvidersOf(Flagging(claims));
    FilterMembers(Denying(claims), (c: ProviderClaim) => c.provider !in providers);
  }

  lemma {:induction false} WithinMembers(indicator: Indicator, claims: seq<ProviderClaim>, providers: seq<SourceId>, n: nat)
    requires n <= |providers|
    ensures forall c :: c in WithinConflicts(indicator, claims, providers, n) <==>
              exists i :: 0 <= i < n && |StancesOf(claims, providers[i])| > 1 &&
                c == Conflict(ProviderVaries(providers[i], indicator, StancesOf(claims, providers[i])), ClaimIds(By(claims, providers[i])))
  {
    if n > 0 { WithinMembers(indicator, claims, providers, n - 1); }
  }

  /** Some provider gave two different clear answers. */
  ghost predicate Varies(claims: seq<ProviderClaim>)
  {
    exists a, b :: a in claims && b in claims && a.provider == b.provider && a.stance != b.stance &&
                   !a.stance.Unclear? && !b.stance.Unclear?
  }

  lemma WithinExactly(indicator: Indicator, claims: seq<ProviderClaim>)
    ensures var providers := Ascending(ClearProviders(claims), ProviderKey);
            WithinConflicts(indicator, claims, providers, |providers|) != [] <==> Varies(claims)
  {
    var providers := Ascending(ClearProviders(claims), ProviderKey);
    SomeWithin(indicator, claims, providers);
    if p :| p in providers && |StancesOf(claims, p)| > 1 { TwoAnswers(claims, p); }
    if Varies(claims) {
      var a, b :| a in claims && b in claims && a.provider == b.provider && a.stance != b.stance &&
                  !a.stance.Unclear? && !b.stance.Unclear?;
      TwoAnswers(claims, a.provider);
      assert a.provider in providers;
    }
  }

  lemma SomeWithin(indicator: Indicator, claims: seq<ProviderClaim>, providers: seq<SourceId>)
    ensures WithinConflicts(indicator, claims, providers, |providers|) != [] <==>
              exists p :: p in providers && |StancesOf(claims, p)| > 1
  {
    var conflicts := WithinConflicts(indicator, claims, providers, |providers|);
    WithinMembers(indicator, claims, providers, |providers|);
    if conflicts != [] {
      assert conflicts[0] in conflicts;
      var i :| 0 <= i < |providers| && |StancesOf(claims, providers[i])| > 1;
      assert providers[i] in providers;
    }
    if p :| p in providers && |StancesOf(claims, p)| > 1 {
      var i :| 0 <= i < |providers| && providers[i] == p;
      assert Conflict(ProviderVaries(p, indicator, StancesOf(claims, p)), ClaimIds(By(claims, p))) in conflicts;
    }
  }

  lemma TwoAnswers(claims: seq<ProviderClaim>, p: SourceId)
    ensures |StancesOf(claims, p)| > 1 <==>
              exists a, b :: a in claims && b in claims && a.provider == b.provider == p && a.stance != b.stance &&
                             !a.stance.Unclear? && !b.stance.Unclear?
  {
    var s := StancesOf(claims, p);
    TwoMembers(s);
    if x, y :| x in s && y in s && x != y {
      var a :| a in claims && a.provider == p && !a.stance.Unclear? && a.stance == x;
      var b :| b in claims && b.provider == p && !b.stance.Unclear? && b.stance == y;
    }
    if a, b :| a in claims && b in claims && a.provider == b.provider == p && a.stance != b.stance &&
               !a.stance.Unclear? && !b.stance.Unclear? {
      assert a.stance in s && b.stance in s;
    }
  }

  /** Two claims that cannot both be read the same way: one flags and another
      denies, whoever made them, or one provider both found nothing and has no
      record. */
  ghost predicate Opposed(a: ProviderClaim, b: ProviderClaim)
  {
    || (a.stance.Flags? && (b.stance.DoesNotFlag? || b.stance.NoRecord?))
    || (a.provider == b.provider && a.stance.DoesNotFlag? && b.stance.NoRecord?)
  }

  lemma AcrossOrWithin(claims: seq<ProviderClaim>)
    ensures (Flagging(claims) != [] && Across(claims) != []) || Varies(claims) <==>
              exists a, b :: a in claims && b in claims && Opposed(a, b)
  {
    SelectionMembers(claims);
    if Flagging(claims) != [] && Across(claims) != [] {
      assert Flagging(claims)[0] in Flagging(claims) && Across(claims)[0] in Across(claims);
      assert Opposed(Flagging(claims)[0], Across(claims)[0]);
    }
    if Varies(claims) {
      var a, b :| a in claims && b in claims && a.provider == b.provider && a.stance != b.stance &&
                  !a.stance.Unclear? && !b.stance.Unclear?;
      assert Opposed(a, b) || Opposed(b, a);
    }
    if a, b :| a in claims && b in claims && Opposed(a, b) {
      OpposedFound(claims, a, b);
    }
  }

  lemma OpposedFound(claims: seq<ProviderClaim>, a: ProviderClaim, b: ProviderClaim)
    requires a in claims && b in claims && Opposed(a, b)
    ensures (Flagging(claims) != [] && Across(claims) != []) || Varies(claims)
  {
    SelectionMembers(claims);
    if a.stance.Flags? {
      assert a in Flagging(claims);
      if b.provider in ProvidersOf(Flagging(claims)) {
        var c :| c in Flagging(claims) && c.provider == b.provider;
        assert Varies(claims);
      } else {
        assert b in Across(claims);
      }
    }
  }

  /** Splitting into conflicts across providers and within one provider loses
      nothing: a disagreement is drafted exactly when two claims are opposed. */
  lemma DisagreementExactly(indicator: Indicator, claims: seq<ProviderClaim>)
    ensures DisagreementFor(indicator, claims).Some? <==> exists a, b :: a in claims && b in claims && Opposed(a, b)
  {
    WithinExactly(indicator, claims);
    AcrossOrWithin(claims);
  }

  /** Several sources are reported exactly when two claims are by different
      providers. */
  lemma SeveralExactly(indicator: Indicator, claims: seq<ProviderClaim>)
    ensures SeveralFor(indicator, claims).Some? <==>
              exists a, b :: a in claims && b in claims && a.provider != b.provider
  {
    var s := ProvidersOf(claims);
    TwoMembers(s);
    if x, y :| x in s && y in s && x != y {
      var a :| a in claims && a.provider == x;
      var b :| b in claims && b.provider == y;
    }
    if a, b :| a in claims && b in claims && a.provider != b.provider {
      assert a.provider in s && b.provider in s;
    }
  }

  // ----------------------------------------------------------------- both sides

  /** Some claim flags. */
  ghost predicate SomeFlags(claims: seq<ProviderClaim>)
  {
    exists a :: a in claims && a.stance.Flags?
  }

  /** The claim denies, and its provider flags nothing. */
  ghost predicate DeniesAlone(claims: seq<ProviderClaim>, b: ProviderClaim)
  {
    b in claims && (b.stance.DoesNotFlag? || b.stance.NoRecord?) && forall a :: a in claims && a.stance.Flags? ==> a.provider != b.provider
  }

  ghost predicate SomeDenyAlone(claims: seq<ProviderClaim>)
  {
    exists b :: DeniesAlone(claims, b)
  }

  /** The provider gave two different clear answers. */
  ghost predicate Wavers(claims: seq<ProviderClaim>, p: SourceId)
  {
    exists a, b :: a in claims && b in claims && a.provider == b.provider == p && a.stance != b.stance &&
                   !a.stance.Unclear? && !b.stance.Unclear?
  }

  /** The conflict between providers: it names exactly the providers that flag, and
      those that deny and flag nothing, and cites exactly these claims of theirs. */
  ghost predicate AcrossSides(indicator: Indicator, claims: seq<ProviderClaim>, c: Conflict)
  {
    && c.about.ProvidersDisagree? && c.about.indicator == indicator
    && (forall p :: p in c.about.flagging <==> exists a :: a in claims && a.stance.Flags? && a.provider == p)
    && (forall p :: p in c.about.others <==> exists b :: DeniesAlone(claims, b) && b.provider == p)
    && (forall id :: id in c.evidence <==>
          exists a :: a in claims && a.observation == id && (a.stance.Flags? || DeniesAlone(claims, a)))
  }

  /** The conflict within one provider: it names exactly its clear answers and cites
      exactly its claims. */
  ghost predicate WithinSides(indicator: Indicator, claims: seq<ProviderClaim>, p: SourceId, c: Conflict)
  {
    && c.about.ProviderVaries? && c.about.indicator == indicator && c.about.provider == p
    && (forall x :: x in c.about.stances <==> exists a :: a in claims && a.provider == p && a.stance == x && !x.Unclear?)
    && (forall id :: id in c.evidence <==> exists a :: a in claims && a.observation == id && a.provider == p)
  }

  lemma AcrossMembers(claims: seq<ProviderClaim>)
    ensures forall c :: c in Flagging(claims) <==> c in claims && c.stance.Flags?
    ensures forall c :: c in Across(claims) <==> DeniesAlone(claims, c)
  {
    SelectionMembers(claims);
    forall c ensures c in Across(claims) <==> DeniesAlone(claims, c) {
      if c.provider in ProvidersOf(Flagging(claims)) {
        var a :| a in Flagging(claims) && a.provider == c.provider;
      }
      if c in claims && Denies(c) && !DeniesAlone(claims, c) {
        var a :| a in claims && a.stance.Flags? && a.provider == c.provider;
        assert a in Flagging(claims);
      }
    }
  }

  lemma SidesFrom(indicator: Indicator, claims: seq<ProviderClaim>, flags: seq<ProviderClaim>, across: seq<ProviderClaim>)
    requires forall c :: c in flags <==> c in claims && c.stance.Flags?
    requires forall c :: c in across <==> DeniesAlone(claims, c)
    ensures AcrossSides(indicator, claims,
                        Conflict(ProvidersDisagree(indicator, ProvidersOf(flags), ProvidersOf(across)), ClaimIds(flags + across)))
  {
    forall id ensures id in ClaimIds(flags + across) <==>
                        exists a :: a in claims && a.observation == id && (a.stance.Flags? || DeniesAlone(claims, a))
    {
      ClaimIdMembers(flags + across, id);
      assert forall c :: c in flags + across <==> c in flags || c in across;
    }
  }

  lemma AcrossParts(claims: seq<ProviderClaim>)
    ensures Flagging(claims) != [] <==> SomeFlags(claims)
    ensures Across(claims) != [] <==> SomeDenyAlone(claims)
  {
    AcrossMembers(claims);
    if Flagging(claims) != [] { assert Flagging(claims)[0] in Flagging(claims); }
    if Across(claims) != [] { assert Across(claims)[0] in Across(claims); }
  }

  /** There is one conflict between providers exactly when some claim flags and
      another denies alone, and both sides stand in it. */
  lemma AcrossExactly(indicator: Indicator, claims: seq<ProviderClaim>)
    ensures |AcrossConflict(indicator, claims)| == if SomeFlags(claims) && SomeDenyAlone(claims) then 1 else 0
    ensures forall c :: c in AcrossConflict(indicator, claims) ==> AcrossSides(indicator, claims, c)
  {
    AcrossParts(claims);
    AcrossMembers(claims);
    SidesFrom(indicator, claims, Flagging(claims), Across(claims));
  }

  lemma WaversIsConflict(indicator: Indicator, claims: seq<ProviderClaim>, p: SourceId)
    requires Wavers(claims, p)
    ensures var providers := Ascending(ClearProviders(claims), ProviderKey);
      exists c :: c in WithinConflicts(indicator, claims, providers, |providers|) && WithinSides(indicator, claims, p, c)
  {
    var providers := Ascending(ClearProviders(claims), ProviderKey);
    WithinMembers(indicator, claims, providers, |providers|);
    TwoAnswers(claims, p);
    assert p in providers;
    var i :| 0 <= i < |providers| && providers[i] == p;
    WithinSidesOf(indicator, claims, p);
  }

  lemma WithinSidesOf(indicator: Indicator, claims: seq<ProviderClaim>, p: SourceId)
    ensures WithinSides(indicator, claims, p,
                        Conflict(ProviderVaries(p, indicator, StancesOf(claims, p)), ClaimIds(By(claims, p))))
  {
    FilterMembers(claims, (c: ProviderClaim) => c.provider == p);
    forall id ensures id in ClaimIds(By(claims, p)) <==> exists a :: a in claims && a.observation == id && a.provider == p {
      ClaimIdMembers(By(claims, p), id);
    }
  }

  lemma EveryWithin(indicator: Indicator, claims: seq<ProviderClaim>, c: Conflict)
    requires var providers := Ascending(ClearProviders(claims), ProviderKey);
      c in WithinConflicts(indicator, claims, providers, |providers|)
    ensures c.about.ProviderVaries? && Wavers(claims, c.about.provider) && WithinSides(indicator, claims, c.about.provider, c)
  {
    var providers := Ascending(ClearProviders(claims), ProviderKey);
    WithinMembers(indicator, claims, providers, |providers|);
    var i :| 0 <= i < |providers| && |StancesOf(claims, providers[i])| > 1 &&
             c == Conflict(ProviderVaries(providers[i], indicator, StancesOf(claims, providers[i])), ClaimIds(By(claims, providers[i])));
    TwoAnswers(claims, providers[i]);
    WithinSidesOf(indicator, claims, providers[i]);
  }

  /** The conflict is between providers or within one, and has both its sides. */
  ghost predicate OneOfTheSides(indicator: Indicator, claims: seq<ProviderClaim>, c: Conflict)
  {
    || (SomeFlags(claims) && SomeDenyAlone(claims) && AcrossSides(indicator, claims, c))
    || (c.about.ProviderVaries? && Wavers(claims, c.about.provider) && WithinSides(indicator, claims, c.about.provider, c))
  }

  /** One conflict between providers, if some flag and some deny alone, and one for each
      provider that wavers, each with both its sides. */
  ghost predicate SidesPresent(indicator: Indicator, claims: seq<ProviderClaim>, conflicts: seq<Conflict>)
  {
    && (forall c :: c in conflicts ==> OneOfTheSides(indicator, claims, c))
    && (SomeFlags(claims) && SomeDenyAlone(claims) ==> exists x :: x in conflicts && AcrossSides(indicator, claims, x))
    && (forall p :: WavererHeard(indicator, claims, conflicts, p))
  }

  /** If the provider wavers it has a conflict of its own. */
  ghost predicate WavererHeard(indicator: Indicator, claims: seq<ProviderClaim>, conflicts: seq<Conflict>, p: SourceId)
  {
    Wavers(claims, p) ==> exists x :: x in conflicts && WithinSides(indicator, claims, p, x)
  }

  /** These are the conflicts of a disagreement. */
  lemma ConflictsExactly(indicator: Indicator, claims: seq<ProviderClaim>)
    ensures SidesPresent(indicator, claims, Disagreements(indicator, claims))
  {
    var across := AcrossConflict(indicator, claims);
    AcrossExactly(indicator, claims);
    forall c | c in Disagreements(indicator, claims) ensures OneOfTheSides(indicator, claims, c) {
      if c !in across { EveryWithin(indicator, claims, c); }
    }
    if across != [] { assert across[0] in across && across[0] in Disagreements(indicator, claims); }
    forall p ensures WavererHeard(indicator, claims, Disagreements(indicator, claims), p) {
      if Wavers(claims, p) { WaversIsConflict(indicator, claims, p); }
    }
  }

  /** One conflict stands before another: the one between providers comes first, then
      each provider in order. */
  ghost predicate HeardBefore(x: Conflict, y: Conflict)
  {
    && y.about.ProviderVaries?
    && (x.about.ProviderVaries? ==>
          x.about.provider != y.about.provider && KeyLe(ProviderKey(x.about.provider), ProviderKey(y.about.provider)))
  }

  ghost predicate HeardInTurn(xs: seq<Conflict>)
  {
    forall i, j :: 0 <= i < j < |xs| ==> HeardBefore(xs[i], xs[j])
  }

  ghost predicate VariesAmong(xs: seq<Conflict>, providers: seq<SourceId>)
  {
    forall x :: x in xs ==> x.about.ProviderVaries? && x.about.provider in providers
  }

  lemma OneMoreHeard(xs: seq<Conflict>, providers: seq<SourceId>, p: SourceId, more: seq<Conflict>)
    requires HeardInTurn(xs) && VariesAmong(xs, providers) && |more| <= 1 && VariesAmong(more, [p])
    requires forall q :: q in providers ==> q != p && KeyLe(ProviderKey(q), ProviderKey(p))
    ensures HeardInTurn(xs + more) && VariesAmong(xs + more, providers + [p])
  {
    var all := xs + more;
    forall i, j | 0 <= i < j < |all| ensures HeardBefore(all[i], all[j]) {
      assert xs[i] in xs;
      if j == |xs| { assert more[0] in more; }
    }
  }

  lemma {:induction false} WithinInTurn(indicator: Indicator, claims: seq<ProviderClaim>, providers: seq<SourceId>, n: nat)
    requires n <= |providers| && NoDuplicates(providers) && Sorted(providers, ProviderKey)
    ensures HeardInTurn(WithinConflicts(indicator, claims, providers, n))
    ensures VariesAmong(WithinConflicts(indicator, claims, providers, n), providers[..n])
  {
    if n > 0 {
      WithinInTurn(indicator, claims, providers, n - 1);
      var before, all := WithinConflicts(indicator, claims, providers, n - 1), WithinConflicts(indicator, claims, providers, n);
      assert providers[..n] == providers[..n - 1] + [providers[n - 1]] && all == before + all[|before|..];
      forall q | q in providers[..n - 1] ensures q != providers[n - 1] && KeyLe(ProviderKey(q), ProviderKey(providers[n - 1])) {
        var k :| 0 <= k < n - 1 && providers[..n - 1][k] == q;
        assert providers[k] == q;
      }
      OneMoreHeard(before, providers[..n - 1], providers[n - 1], all[|before|..]);
    }
  }

  /** The conflicts of a disagreement stand in order: the one between providers, then
      those within one by provider. */
  lemma ConflictsInTurn(indicator: Indicator, claims: seq<ProviderClaim>)
    ensures HeardInTurn(Disagreements(indicator, claims))
  {
    var providers := Ascending(ClearProviders(claims), ProviderKey);
    var across, within := AcrossConflict(indicator, claims), WithinConflicts(indicator, claims, providers, |providers|);
    AscendingApart(ClearProviders(claims), ProviderKey);
    WithinInTurn(indicator, claims, providers, |providers|);
    AcrossFirst(across, within, providers[..|providers|]);
  }

  lemma AcrossFirst(across: seq<Conflict>, within: seq<Conflict>, providers: seq<SourceId>)
    requires |across| <= 1 && (forall x :: x in across ==> x.about.ProvidersDisagree?)
    requires HeardInTurn(within) && VariesAmong(within, providers)
    ensures HeardInTurn(across + within)
  {
    var all := across + within;
    forall i, j | 0 <= i < j < |all| ensures HeardBefore(all[i], all[j]) {
      if i < |across| { assert across[i] in across && within[j - |across|] in within; }
    }
  }

  /** Claims about different observations. */
  ghost predicate OneEach(claims: seq<ProviderClaim>)
  {
    forall a, b :: a in claims && b in claims && a.observation == b.observation ==> a == b
  }

  /** The claim takes part in a disagreement: it flags while another denies alone, it
      denies alone while another flags, or its provider wavers. */
  ghost predicate Involved(claims: seq<ProviderClaim>, a: ProviderClaim)
  {
    && a in claims
    && (|| (a.stance.Flags? && SomeDenyAlone(claims))
        || (SomeFlags(claims) && DeniesAlone(claims, a))
        || Wavers(claims, a.provider))
  }

  /** The claims a disagreement lists are exactly those that take part in it. */
  lemma ListedInvolved(indicator: Indicator, claims: seq<ProviderClaim>, a: ProviderClaim)
    requires OneEach(claims) && DisagreementFor(indicator, claims).Some?
    ensures a in DisagreementFor(indicator, claims).value.claims <==> Involved(claims, a)
  {
    var conflicts := Disagreements(indicator, claims);
    DisagreementKeepsSides(indicator, claims);
    if a in claims && exists c :: c in conflicts && a.observation in c.evidence {
      var c :| c in conflicts && a.observation in c.evidence;
      ConflictsExactly(indicator, claims);
    }
    if Involved(claims, a) { InvolvedIsCited(indicator, claims, a); }
  }

  lemma WavererIsCited(indicator: Indicator, claims: seq<ProviderClaim>, conflicts: seq<Conflict>, a: ProviderClaim)
    requires SidesPresent(indicator, claims, conflicts) && a in claims && Wavers(claims, a.provider)
    ensures exists c :: c in conflicts && a.observation in c.evidence
  {
    assert WavererHeard(indicator, claims, conflicts, a.provider);
    var c :| c in conflicts && WithinSides(indicator, claims, a.provider, c);
  }

  lemma SideIsCited(indicator: Indicator, claims: seq<ProviderClaim>, conflicts: seq<Conflict>, a: ProviderClaim)
    requires SidesPresent(indicator, claims, conflicts) && a in claims && (a.stance.Flags? || DeniesAlone(claims, a))
    requires SomeFlags(claims) && SomeDenyAlone(claims)
    ensures exists c :: c in conflicts && a.observation in c.evidence
  {
    var c :| c in conflicts && AcrossSides(indicator, claims, c);
  }

  lemma InvolvedIsCited(indicator: Indicator, claims: seq<ProviderClaim>, a: ProviderClaim)
    requires Involved(claims, a)
    ensures exists c :: c in Disagreements(indicator, claims) && a.observation in c.evidence
  {
    var conflicts := Disagreements(indicator, claims);
    ConflictsExactly(indicator, claims);
    if Wavers(claims, a.provider) {
      WavererIsCited(indicator, claims, conflicts, a);
    } else {
      SideIsCited(indicator, claims, conflicts, a);
    }
  }

  /** Of two opposed claims the denial is always listed. The flag is listed exactly
      when some provider denies and flags nothing, or the provider of the flag
      itself wavers. */
  lemma OpposedListed(indicator: Indicator, claims: seq<ProviderClaim>, a: ProviderClaim, b: ProviderClaim)
    requires OneEach(claims) && a in claims && b in claims && Opposed(a, b)
    ensures DisagreementFor(indicator, claims).Some?
    ensures b in DisagreementFor(indicator, claims).value.claims
    ensures a in DisagreementFor(indicator, claims).value.claims <==> SomeDenyAlone(claims) || Wavers(claims, a.provider)
  {
    DisagreementExactly(indicator, claims);
    ListedInvolved(indicator, claims, a);
    ListedInvolved(indicator, claims, b);
    if a.stance.Flags? && !DeniesAlone(claims, b) {
      var c :| c in claims && c.stance.Flags? && c.provider == b.provider;
      assert Wavers(claims, b.provider);
    }
  }

  /** So a flag can be left out although another provider denies: that provider also
      flags, in another observation. */
  lemma FlagLeftOut(indicator: Indicator) returns (claims: seq<ProviderClaim>, a: ProviderClaim, b: ProviderClaim)
    ensures OneEach(claims) && a in claims && b in claims && Opposed(a, b) && a.provider != b.provider
    ensures DisagreementFor(indicator, claims).Some? && a !in DisagreementFor(indicator, claims).value.claims
  {
    a, b := ProviderClaim("abuseipdb", 1, Flags, 0), ProviderClaim("virustotal", 2, DoesNotFlag, 0);
    var c := ProviderClaim("virustotal", 3, Flags, 0);
    claims := [a, b, c];
    NobodyAlone(claims, a, b, c);
    OpposedListed(indicator, claims, a, b);
  }

  lemma NobodyAlone(claims: seq<ProviderClaim>, a: ProviderClaim, b: ProviderClaim, c: ProviderClaim)
    requires claims == [a, b, c] && a.stance.Flags? && b.stance.DoesNotFlag? && c.stance.Flags?
    requires a.provider != b.provider && b.provider == c.provider
    requires a.observation != b.observation && a.observation != c.observation && b.observation != c.observation
    ensures OneEach(claims) && !SomeDenyAlone(claims) && !Wavers(claims, a.provider)
    ensures a in claims && b in claims
  {
    assert forall x :: x in claims <==> x == a || x == b || x == c;
  }

  // ------------------------------------------------------------- no new facts

  lemma ClaimsCopied(ix: EvidenceIndex, indicator: Indicator)
    requires Grounded(ix)
    ensures CopiedClaims(ix, ClaimsOf(ObservationsAbout(ix, indicator)))
  {
    ClaimMembers(ObservationsAbout(ix, indicator));
  }

  lemma IdsOfClaims(claims: seq<ProviderClaim>, some: seq<ProviderClaim>)
    requires forall c :: c in some ==> c in claims
    ensures forall id :: id in ClaimIds(some) ==> exists c :: c in claims && c.observation == id
  {
    forall id | id in ClaimIds(some) ensures exists c :: c in claims && c.observation == id {
      ClaimIdMembers(some, id);
    }
  }

  /** Every conflict cites something, and only claims. */
  ghost predicate CitesClaims(claims: seq<ProviderClaim>, c: Conflict)
  {
    c.evidence != [] && forall id :: id in c.evidence ==> exists a :: a in claims && a.observation == id
  }

  lemma AcrossCitesClaims(indicator: Indicator, claims: seq<ProviderClaim>)
    ensures forall c :: c in AcrossConflict(indicator, claims) ==> CitesClaims(claims, c)
  {
    SelectionMembers(claims);
    IdsOfClaims(claims, Flagging(claims) + Across(claims));
  }

  lemma ByProvider(claims: seq<ProviderClaim>, p: SourceId)
    requires |StancesOf(claims, p)| > 1
    ensures By(claims, p) != []
    ensures forall id :: id in ClaimIds(By(claims, p)) ==> exists a :: a in claims && a.observation == id
  {
    FilterMembers(claims, (c: ProviderClaim) => c.provider == p);
    assert StancesOf(claims, p) != {};
    var c :| c in claims && c.provider == p && !c.stance.Unclear?;
    assert c in By(claims, p);
    IdsOfClaims(claims, By(claims, p));
  }

  lemma WithinCitesClaims(indicator: Indicator, claims: seq<ProviderClaim>, providers: seq<SourceId>)
    ensures forall c :: c in WithinConflicts(indicator, claims, providers, |providers|) ==> CitesClaims(claims, c)
  {
    WithinMembers(indicator, claims, providers, |providers|);
    forall i | 0 <= i < |providers| && |StancesOf(claims, providers[i])| > 1
      ensures CitesClaims(claims, Conflict(ProviderVaries(providers[i], indicator, StancesOf(claims, providers[i])),
                                           ClaimIds(By(claims, providers[i]))))
    {
      ByProvider(claims, providers[i]);
    }
  }

  /** A disagreement keeps every claim its conflicts cite and nothing else. */
  lemma DisagreementKeepsSides(indicator: Indicator, claims: seq<ProviderClaim>)
    requires DisagreementFor(indicator, claims).Some?
    ensures var d := DisagreementFor(indicator, claims).value;
      && (forall c :: c in d.conflicts ==> CitesClaims(claims, c))
      && (forall a :: a in d.claims <==> a in claims && exists c :: c in d.conflicts && a.observation in c.evidence)
      && d.claims != []
  {
    var conflicts := Disagreements(indicator, claims);
    AcrossCitesClaims(indicator, claims);
    WithinCitesClaims(indicator, claims, Ascending(ClearProviders(claims), ProviderKey));
    var ids := CitedIn(conflicts);
    FilterMembers(claims, (c: ProviderClaim) => c.observation in ids);
    assert conflicts[0] in conflicts && CitesClaims(claims, conflicts[0]);
    assert conflicts[0].evidence[0] in conflicts[0].evidence;
    var a :| a in claims && a.observation == conflicts[0].evidence[0];
    assert a in Involving(claims, ids);
  }

  lemma DisagreementDerived(ix: EvidenceIndex, indicator: Indicator, claims: seq<ProviderClaim>)
    requires CopiedClaims(ix, claims) && indicator in ix.indicators
    ensures AllDerived(ix, Emitting(SourceDisagreement, DisagreementFor(indicator, claims)))
  {
    if DisagreementFor(indicator, claims).Some? {
      DisagreementKeepsSides(indicator, claims);
      var d := DisagreementFor(indicator, claims).value;
      forall c | c in d.conflicts ensures c.evidence != [] && KnownEvidence(ix, c.evidence) {
        assert CitesClaims(claims, c);
      }
      assert Derived(ix, d);
    }
  }

  lemma SeveralDerived(ix: EvidenceIndex, indicator: Indicator, claims: seq<ProviderClaim>)
    requires CopiedClaims(ix, claims) && indicator in ix.indicators && claims != []
    ensures AllDerived(ix, Emitting(MultipleSources, SeveralFor(indicator, claims)))
  {
  }

  lemma EmittedForDerived(ix: EvidenceIndex, indicator: Indicator)
    requires Grounded(ix) && indicator in ix.byIndicator
    ensures AllDerived(ix, EmittedFor(indicator, ObservationsAbout(ix, indicator)))
  {
    var claims := ClaimsOf(ObservationsAbout(ix, indicator));
    ClaimsCopied(ix, indicator);
    if claims != [] {
      SeveralDerived(ix, indicator, claims);
      DisagreementDerived(ix, indicator, claims);
      DerivedConcat(ix, Emitting(MultipleSources, SeveralFor(indicator, claims)),
                    Emitting(SourceDisagreement, DisagreementFor(indicator, claims)));
    }
  }

  lemma InStages(ix: EvidenceIndex, indicators: seq<Indicator>)
    ensures var stages, parts := Stages(ix, indicators), Parts(ix, indicators);
      Staged(stages, parts) && |parts| == |indicators| && stages[|indicators|] == EmittedUpTo(ix, indicators, |indicators|)
  {
  }

  /** No draft of these rules states a new fact. */
  lemma EmittedDerived(ix: EvidenceIndex)
    requires Grounded(ix)
    ensures AllDerived(ix, Emitted(ix))
  {
    var indicators := Ascending(ix.byIndicator.Keys, IndicatorKey);
    var parts := Parts(ix, indicators);
    forall i | 0 <= i < |parts| ensures AllDerived(ix, parts[i]) {
      assert indicators[i] in indicators;
      EmittedForDerived(ix, indicators[i]);
    }
    InStages(ix, indicators);
    StagesDerived(ix, Stages(ix, indicators), parts, |indicators|);
  }
}
