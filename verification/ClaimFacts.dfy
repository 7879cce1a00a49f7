/** What the report of a sound investigation says about the claims of providers: who
    reports on an indicator, and which claims stand against each other. */
module ClaimFacts {
  import opened Results
  import opened Ordering
  import opened Model
  import opened Investigation
  import opened Index
  import opened IndexFacts
  import opened CorrelationIds
  import opened Drafts
  import opened Emissions
  import opened Providers
  import opened Correlate
  import opened ReportFacts
  import opened DraftFacts

  // ---------------------------------------------------------------------- stances

  predicate Positive(n: Option<nat>)
  {
    n.Some? && n.value > 0
  }

  /** Some engine flags. */
  predicate EngineFlags(d: ObservationData)
    requires d.ProviderReputation?
  {
    Positive(d.malicious) || Positive(d.suspicious)
  }

  /** All five counters are given, and some engine answered. */
  predicate EnginesAnswer(d: ObservationData)
    requires d.ProviderReputation?
  {
    && d.malicious.Some? && d.suspicious.Some? && d.undetected.Some? && d.harmless.Some? && d.timeouts.Some?
    && (Positive(d.malicious) || Positive(d.suspicious) || Positive(d.undetected) || Positive(d.harmless) || Positive(d.timeouts))
  }

  /** Which data flag, deny or stay unclear. An observation flags if it reports
      something, if an engine does, or if it is a listing; it does not flag if it
      reports nothing in so many words; and no other data are a claim. */
  lemma StanceExactly(d: ObservationData)
    ensures StanceOf(d) == Some(Flags) <==>
              || (d.IpReputation? && Positive(d.totalReports)) || (d.ProviderReputation? && EngineFlags(d)) || d.ProviderListing?
    ensures StanceOf(d) == Some(DoesNotFlag) <==>
              || (d.IpReputation? && d.totalReports == Some(0))
              || (d.ProviderReputation? && !EngineFlags(d) && EnginesAnswer(d))
    ensures StanceOf(d) == Some(NoRecord) <==> d.ProviderNoRecord?
    ensures StanceOf(d) == None <==>
              !d.IpReputation? && !d.ProviderReputation? && !d.ProviderListing? && !d.ProviderNoRecord?
  {
    if d.ProviderReputation? {
      assert EngineFlags(d) <==> OrZero(d.malicious) + OrZero(d.suspicious) > 0;
    }
  }

  /** A claim is its observation's: the provider is its source, the time is when it was
      collected. */
  lemma ClaimCopies(o: Observation)
    ensures ClaimOf(o).Some? <==> StanceOf(o.data).Some?
    ensures ClaimOf(o).Some? ==>
              && ClaimOf(o).value.provider == o.source && ClaimOf(o).value.observation == o.id
              && Some(ClaimOf(o).value.stance) == StanceOf(o.data) && ClaimOf(o).value.collectedAt == o.collectedAt
  {
  }

  // ------------------------------------------------------------ claims on an indicator

  /** Some indexed observation of the indicator makes the claim. */
  ghost predicate ClaimOn(s: Store, ind: Indicator, a: ProviderClaim)
  {
    exists o :: o in Firsts(s.observations) && o.indicator == ind && ClaimOf(o) == Some(a)
  }

  /** These are the claims on the indicator. */
  ghost predicate ClaimsOn(s: Store, ind: Indicator, claims: seq<ProviderClaim>)
  {
    forall a :: a in claims <==> ClaimOn(s, ind, a)
  }

  lemma DraftedClaims(s: Store, ind: Indicator)
    ensures ClaimsOn(s, ind, ClaimsOf(ObservationsAbout(IndexOf(s), ind)))
  {
    var os := ObservationsAbout(IndexOf(s), ind);
    ClaimMembers(os);
    forall o ensures o in os <==> o in Firsts(s.observations) && o.indicator == ind { ListedObservations(s, ind, o); }
    ClaimsFrom(s, ind, os);
  }

  lemma ListedObservations(s: Store, ind: Indicator, o: Observation)
    ensures o in ObservationsAbout(IndexOf(s), ind) <==> o in Firsts(s.observations) && o.indicator == ind
  {
    ListedExactly(s, ind, o);
  }

  lemma ClaimsFrom(s: Store, ind: Indicator, os: seq<Observation>)
    requires forall o :: o in os <==> o in Firsts(s.observations) && o.indicator == ind
    requires forall c :: c in ClaimsOf(os) <==> exists o :: o in os && ClaimOf(o) == Some(c)
    ensures ClaimsOn(s, ind, ClaimsOf(os))
  {
    forall a ensures a in ClaimsOf(os) <==> ClaimOn(s, ind, a) {
      if ClaimOn(s, ind, a) {
        var o :| o in Firsts(s.observations) && o.indicator == ind && ClaimOf(o) == Some(a);
        assert o in os;
      }
    }
  }

  lemma ClaimedIsIndexed(s: Store, ind: Indicator, a: ProviderClaim)
    requires ClaimOn(s, ind, a)
    ensures ind in IndexOf(s).byIndicator
  {
    var o :| o in Firsts(s.observations) && o.indicator == ind && ClaimOf(o) == Some(a);
    ListedExactly(s, ind, o);
  }

  // ------------------------------------------------------------------ several sources

  /** The correlation lists exactly these claims on the indicator, as their providers
      make them. */
  ghost predicate AboutSources(c: Correlation, ind: Indicator, claims: seq<ProviderClaim>)
  {
    && c.kind.MultipleSources? && (forall x :: x in c.subjects <==> x == IndicatorEntity(ind))
    && (forall a :: a in c.claims <==> a in claims)
    && c.links == [] && c.supporting == [] && c.conflicts == [] && c.gaps == [] && Caveated(c, [OwnClassifications])
  }

  lemma SeveralCarried(ind: Indicator, claims: seq<ProviderClaim>, c: Correlation)
    requires Carries(SeveralDraft(ind, claims), c) && c.kind.MultipleSources?
    ensures AboutSources(c, ind, claims)
  {
    Nothing(c.links);
    Nothing(c.supporting);
  }

  lemma SourcesAlike(c: Correlation, ind: Indicator, one: seq<ProviderClaim>, other: seq<ProviderClaim>)
    requires AboutSources(c, ind, one) && forall a :: a in one <==> a in other
    ensures AboutSources(c, ind, other)
  {
  }

  /** The report lists all claims on an indicator exactly when two of them are by
      different providers. */
  lemma SourcesReportedExactly(s: Store, naming: Naming, ind: Indicator, claims: seq<ProviderClaim>)
    requires Sound(s) && Named(s, naming) && ClaimsOn(s, ind, claims)
    ensures (exists c :: c in ReportOf(s, naming).correlations && AboutSources(c, ind, claims)) <==>
              exists a, b :: a in claims && b in claims && a.provider != b.provider
  {
    IndexWired(s);
    if a, b :| a in claims && b in claims && a.provider != b.provider { SourcesReported(s, naming, ind, claims, a, b); }
    if c :| c in ReportOf(s, naming).correlations && AboutSources(c, ind, claims) { ReportedSources(s, naming, ind, claims, c); }
  }

  lemma SourcesDrafted(s: Store, ind: Indicator, claims: seq<ProviderClaim>, a: ProviderClaim, b: ProviderClaim) returns (e: Emission)
    requires Sound(s) && Wired(IndexOf(s)) && ClaimsOn(s, ind, claims) && a in claims && b in claims && a.provider != b.provider
    ensures e in AllEmitted(IndexOf(s)) && e.kind.MultipleSources?
    ensures Some(e.draft) == SeveralFor(ind, ClaimsOf(ObservationsAbout(IndexOf(s), ind)))
  {
    var drafted := ClaimsOf(ObservationsAbout(IndexOf(s), ind));
    DraftedClaims(s, ind);
    ClaimedIsIndexed(s, ind, a);
    assert a in drafted && b in drafted;
    SeveralExactly(ind, drafted);
    e := Emission(MultipleSources, SeveralFor(ind, drafted).value);
    assert AboutClaims(IndexOf(s), ind, e);
    ClaimDrafts(IndexOf(s), e);
  }

  lemma SourcesReported(s: Store, naming: Naming, ind: Indicator, claims: seq<ProviderClaim>, a: ProviderClaim, b: ProviderClaim)
    requires Sound(s) && Named(s, naming) && Wired(IndexOf(s)) && ClaimsOn(s, ind, claims)
    requires a in claims && b in claims && a.provider != b.provider
    ensures exists c :: c in ReportOf(s, naming).correlations && AboutSources(c, ind, claims)
  {
    var drafted := ClaimsOf(ObservationsAbout(IndexOf(s), ind));
    var e := SourcesDrafted(s, ind, claims, a, b);
    var c := DraftReported(s, naming, e);
    DraftCarried(s, naming, e, c);
    SeveralCarried(ind, drafted, c);
    DraftedClaims(s, ind);
    SourcesAlike(c, ind, drafted, claims);
  }

  lemma SeveralProviders(ix: EvidenceIndex, e: Emission) returns (a: ProviderClaim, b: ProviderClaim)
    requires Wired(ix) && e in AllEmitted(ix) && e.kind.MultipleSources?
    ensures a in e.draft.claims && b in e.draft.claims && a.provider != b.provider
  {
    ClaimDrafts(ix, e);
    var i :| AboutClaims(ix, i, e);
    SeveralExactly(i, ClaimsOf(ObservationsAbout(ix, i)));
    a, b :| a in e.draft.claims && b in e.draft.claims && a.provider != b.provider;
  }

  lemma ReportedSources(s: Store, naming: Naming, ind: Indicator, claims: seq<ProviderClaim>, c: Correlation)
    requires Sound(s) && Wired(IndexOf(s)) && ClaimsOn(s, ind, claims)
    requires c in ReportOf(s, naming).correlations && AboutSources(c, ind, claims)
    ensures exists a, b :: a in claims && b in claims && a.provider != b.provider
  {
    var e := DraftBehind(s, naming, c);
    assert Comes(s, naming, e, c);
    DraftCarried(s, naming, e, c);
    var a, b := SeveralProviders(IndexOf(s), e);
  }

  // --------------------------------------------------------------------- disagreement

  /** The conflicts are there with both their sides, and listed are exactly the claims
      that take part. */
  ghost predicate BothSidesTold(c: Correlation, ind: Indicator, claims: seq<ProviderClaim>)
  {
    SidesPresent(ind, claims, c.conflicts) && forall a :: a in c.claims <==> Involved(claims, a)
  }

  /** What a disagreement says beside its two sides. */
  ghost predicate DisputeAlone(c: Correlation, ind: Indicator)
  {
    && (forall x :: x in c.subjects <==> x == IndicatorEntity(ind))
    && c.links == [] && c.supporting == [] && c.gaps == [] && Caveated(c, [OwnClassifications, NotResolved])
  }

  ghost predicate AboutDispute(c: Correlation, ind: Indicator, claims: seq<ProviderClaim>)
  {
    c.kind.SourceDisagreement? && DisputeAlone(c, ind) && BothSidesTold(c, ind, claims)
  }

  /** The same claims in another order tell the same. */
  lemma PartsAlike(one: seq<ProviderClaim>, other: seq<ProviderClaim>)
    requires forall a :: a in one <==> a in other
    ensures SomeFlags(one) <==> SomeFlags(other)
    ensures forall b :: DeniesAlone(one, b) <==> DeniesAlone(other, b)
    ensures SomeDenyAlone(one) <==> SomeDenyAlone(other)
    ensures forall p :: Wavers(one, p) <==> Wavers(other, p)
    ensures forall a :: Involved(one, a) <==> Involved(other, a)
  {
  }

  lemma AcrossAlike(ind: Indicator, one: seq<ProviderClaim>, other: seq<ProviderClaim>, x: Conflict)
    requires forall a :: a in one <==> a in other
    ensures AcrossSides(ind, one, x) <==> AcrossSides(ind, other, x)
  {
    PartsAlike(one, other);
  }

  lemma WithinAlike(ind: Indicator, one: seq<ProviderClaim>, other: seq<ProviderClaim>, p: SourceId, x: Conflict)
    requires forall a :: a in one <==> a in other
    ensures WithinSides(ind, one, p, x) <==> WithinSides(ind, other, p, x)
  {
  }

  lemma HeardAlike(ind: Indicator, one: seq<ProviderClaim>, other: seq<ProviderClaim>, conflicts: seq<Conflict>, p: SourceId)
    requires forall a :: a in one <==> a in other
    requires WavererHeard(ind, one, conflicts, p)
    ensures WavererHeard(ind, other, conflicts, p)
  {
    PartsAlike(one, other);
    if Wavers(other, p) {
      var x :| x in conflicts && WithinSides(ind, one, p, x);
      WithinAlike(ind, one, other, p, x);
    }
  }

  lemma SideAlike(ind: Indicator, one: seq<ProviderClaim>, other: seq<ProviderClaim>, x: Conflict)
    requires (forall a :: a in one <==> a in other) && OneOfTheSides(ind, one, x)
    ensures OneOfTheSides(ind, other, x)
  {
    PartsAlike(one, other);
    AcrossAlike(ind, one, other, x);
    if x.about.ProviderVaries? { WithinAlike(ind, one, other, x.about.provider, x); }
  }

  lemma PresentAlike(ind: Indicator, one: seq<ProviderClaim>, other: seq<ProviderClaim>, conflicts: seq<Conflict>)
    requires SidesPresent(ind, one, conflicts) && forall a :: a in one <==> a in other
    ensures SidesPresent(ind, other, conflicts)
  {
    PartsAlike(one, other);
    forall x | x in conflicts ensures OneOfTheSides(ind, other, x) { SideAlike(ind, one, other, x); }
    forall p ensures WavererHeard(ind, other, conflicts, p) { HeardAlike(ind, one, other, conflicts, p); }
    if SomeFlags(other) && SomeDenyAlone(other) {
      var x :| x in conflicts && AcrossSides(ind, one, x);
      AcrossAlike(ind, one, other, x);
    }
  }

  lemma ToldAlike(c: Correlation, ind: Indicator, one: seq<ProviderClaim>, other: seq<ProviderClaim>)
    requires BothSidesTold(c, ind, one) && forall a :: a in one <==> a in other
    ensures BothSidesTold(c, ind, other)
  {
    PartsAlike(one, other);
    PresentAlike(ind, one, other, c.conflicts);
  }

  lemma AcrossToldAlike(ind: Indicator, claims: seq<ProviderClaim>, x: Conflict, y: Conflict)
    requires SameConflict(x, y) && AcrossSides(ind, claims, x)
    ensures AcrossSides(ind, claims, y)
  {
  }

  lemma WithinToldAlike(ind: Indicator, claims: seq<ProviderClaim>, p: SourceId, x: Conflict, y: Conflict)
    requires SameConflict(x, y) && WithinSides(ind, claims, p, x)
    ensures WithinSides(ind, claims, p, y)
  {
  }

  lemma SideToldAlike(ind: Indicator, claims: seq<ProviderClaim>, x: Conflict, y: Conflict)
    requires SameConflict(x, y) && OneOfTheSides(ind, claims, x)
    ensures OneOfTheSides(ind, claims, y)
  {
    if AcrossSides(ind, claims, x) {
      AcrossToldAlike(ind, claims, x, y);
    } else {
      WithinToldAlike(ind, claims, x.about.provider, x, y);
    }
  }

  lemma SomeSide(ind: Indicator, claims: seq<ProviderClaim>, a: seq<Conflict>, x: Conflict)
    requires SidesPresent(ind, claims, a) && x in a
    ensures OneOfTheSides(ind, claims, x)
  {
  }

  lemma EachKept(ind: Indicator, claims: seq<ProviderClaim>, a: seq<Conflict>, b: seq<Conflict>, y: Conflict)
    requires SidesPresent(ind, claims, a) && SameConflicts(b, a) && y in b
    ensures OneOfTheSides(ind, claims, y)
  {
    var x := SideKept(b, a, y);
    SomeSide(ind, claims, a, x);
    SideToldAlike(ind, claims, x, y);
  }

  lemma AcrossSide(ind: Indicator, claims: seq<ProviderClaim>, a: seq<Conflict>) returns (x: Conflict)
    requires SidesPresent(ind, claims, a) && SomeFlags(claims) && SomeDenyAlone(claims)
    ensures x in a && AcrossSides(ind, claims, x)
  {
    x :| x in a && AcrossSides(ind, claims, x);
  }

  lemma WithinSide(ind: Indicator, claims: seq<ProviderClaim>, a: seq<Conflict>, p: SourceId) returns (x: Conflict)
    requires SidesPresent(ind, claims, a) && Wavers(claims, p)
    ensures x in a && WithinSides(ind, claims, p, x)
  {
    assert WavererHeard(ind, claims, a, p);
    x :| x in a && WithinSides(ind, claims, p, x);
  }

  lemma AcrossKept(ind: Indicator, claims: seq<ProviderClaim>, a: seq<Conflict>, b: seq<Conflict>)
    requires SidesPresent(ind, claims, a) && SameConflicts(a, b) && SomeFlags(claims) && SomeDenyAlone(claims)
    ensures exists y :: y in b && AcrossSides(ind, claims, y)
  {
    var x := AcrossSide(ind, claims, a);
    var y := SideKept(a, b, x);
    AcrossToldAlike(ind, claims, x, y);
  }

  lemma WithinKept(ind: Indicator, claims: seq<ProviderClaim>, a: seq<Conflict>, b: seq<Conflict>, p: SourceId)
    requires SidesPresent(ind, claims, a) && SameConflicts(a, b) && Wavers(claims, p)
    ensures exists y :: y in b && WithinSides(ind, claims, p, y)
  {
    var x := WithinSide(ind, claims, a, p);
    var y := SideKept(a, b, x);
    WithinToldAlike(ind, claims, p, x, y);
  }

  lemma SidesKept(ind: Indicator, claims: seq<ProviderClaim>, a: seq<Conflict>, b: seq<Conflict>)
    requires SidesPresent(ind, claims, a) && SameConflicts(a, b)
    ensures SidesPresent(ind, claims, b)
  {
    ConflictsBack(a, b);
    forall y | y in b ensures OneOfTheSides(ind, claims, y) { EachKept(ind, claims, a, b, y); }
    if SomeFlags(claims) && SomeDenyAlone(claims) { AcrossKept(ind, claims, a, b); }
    forall p ensures WavererHeard(ind, claims, b, p) {
      if Wavers(claims, p) { WithinKept(ind, claims, a, b, p); }
    }
  }

  lemma SidesCarried(ind: Indicator, claims: seq<ProviderClaim>, d: Draft, c: Correlation)
    requires OneEach(claims) && DisagreementFor(ind, claims) == Some(d) && Carries(d, c)
    ensures BothSidesTold(c, ind, claims)
  {
    ConflictsExactly(ind, claims);
    SidesKept(ind, claims, d.conflicts, c.conflicts);
    forall a ensures a in c.claims <==> Involved(claims, a) { ListedInvolved(ind, claims, a); }
  }

  lemma AloneCarried(ind: Indicator, listed: seq<ProviderClaim>, conflicts: seq<Conflict>, d: Draft, c: Correlation)
    requires d == Draft([IndicatorEntity(ind)], [], listed, [], conflicts, [], [OwnClassifications, NotResolved]) && Carries(d, c)
    ensures DisputeAlone(c, ind)
  {
    Nothing(c.links);
    Nothing(c.supporting);
  }

  lemma DisputeCarried(ind: Indicator, claims: seq<ProviderClaim>, d: Draft, c: Correlation)
    requires OneEach(claims) && DisagreementFor(ind, claims) == Some(d) && Carries(d, c) && c.kind.SourceDisagreement?
    ensures AboutDispute(c, ind, claims)
  {
    SidesCarried(ind, claims, d, c);
    AloneCarried(ind, d.claims, d.conflicts, d, c);
  }

  lemma DisputeAlike(c: Correlation, ind: Indicator, one: seq<ProviderClaim>, other: seq<ProviderClaim>)
    requires AboutDispute(c, ind, one) && forall a :: a in one <==> a in other
    ensures AboutDispute(c, ind, other)
  {
    ToldAlike(c, ind, one, other);
  }

  lemma ClaimsApart(s: Store, ind: Indicator)
    requires Sound(s)
    ensures OneEach(ClaimsOf(ObservationsAbout(IndexOf(s), ind)))
  {
    IndexIsGrounded(s);
    ClaimsCopied(IndexOf(s), ind);
  }

  /** The report has a disagreement about an indicator, with both its sides, exactly
      when two of the claims are opposed. */
  lemma DisputeReportedExactly(s: Store, naming: Naming, ind: Indicator, claims: seq<ProviderClaim>)
    requires Sound(s) && Named(s, naming) && ClaimsOn(s, ind, claims)
    ensures (exists c :: c in ReportOf(s, naming).correlations && AboutDispute(c, ind, claims)) <==>
              exists a, b :: a in claims && b in claims && Opposed(a, b)
  {
    IndexWired(s);
    if a, b :| a in claims && b in claims && Opposed(a, b) { DisputeReported(s, naming, ind, claims, a, b); }
    if c :| c in ReportOf(s, naming).correlations && AboutDispute(c, ind, claims) { ReportedDispute(s, naming, ind, claims, c); }
  }

  lemma DisputeDrafted(s: Store, ind: Indicator, claims: seq<ProviderClaim>, a: ProviderClaim, b: ProviderClaim) returns (e: Emission)
    requires Sound(s) && Wired(IndexOf(s)) && ClaimsOn(s, ind, claims) && a in claims && b in claims && Opposed(a, b)
    ensures e in AllEmitted(IndexOf(s)) && e.kind.SourceDisagreement?
    ensures Some(e.draft) == DisagreementFor(ind, ClaimsOf(ObservationsAbout(IndexOf(s), ind)))
  {
    var drafted := ClaimsOf(ObservationsAbout(IndexOf(s), ind));
    DraftedClaims(s, ind);
    ClaimedIsIndexed(s, ind, a);
    assert a in drafted && b in drafted;
    Providers.DisagreementExactly(ind, drafted);
    e := Emission(SourceDisagreement, DisagreementFor(ind, drafted).value);
    assert AboutClaims(IndexOf(s), ind, e);
    ClaimDrafts(IndexOf(s), e);
  }

  lemma DisputeReported(s: Store, naming: Naming, ind: Indicator, claims: seq<ProviderClaim>, a: ProviderClaim, b: ProviderClaim)
    requires Sound(s) && Named(s, naming) && Wired(IndexOf(s)) && ClaimsOn(s, ind, claims)
    requires a in claims && b in claims && Opposed(a, b)
    ensures exists c :: c in ReportOf(s, naming).correlations && AboutDispute(c, ind, claims)
  {
    var drafted := ClaimsOf(ObservationsAbout(IndexOf(s), ind));
    var e := DisputeDrafted(s, ind, claims, a, b);
    var c := DraftReported(s, naming, e);
    DraftCarried(s, naming, e, c);
    ClaimsApart(s, ind);
    DisputeCarried(ind, drafted, e.draft, c);
    DraftedClaims(s, ind);
    DisputeAlike(c, ind, drafted, claims);
  }

  lemma ReportedDispute(s: Store, naming: Naming, ind: Indicator, claims: seq<ProviderClaim>, c: Correlation)
    requires Sound(s) && Wired(IndexOf(s)) && ClaimsOn(s, ind, claims)
    requires c in ReportOf(s, naming).correlations && AboutDispute(c, ind, claims)
    ensures exists a, b :: a in claims && b in claims && Opposed(a, b)
  {
    var e := DraftBehind(s, naming, c);
    assert Comes(s, naming, e, c);
    DraftCarried(s, naming, e, c);
    ClaimDrafts(IndexOf(s), e);
    var i :| AboutClaims(IndexOf(s), i, e);
    assert IndicatorEntity(i) in e.draft.subjects by { assert Alone(i)[0] == IndicatorEntity(i); }
    DraftedClaims(s, ind);
    Providers.DisagreementExactly(ind, ClaimsOf(ObservationsAbout(IndexOf(s), ind)));
  }
}
