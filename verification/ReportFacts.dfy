/** What stands in the report of a sound investigation: which of the drafts reach
    it, and when providers are reported as disagreeing. */
module ReportFacts {
  import opened Results
  import opened Ordering
  import opened Model
  import opened Investigation
  import opened Index
  import opened IndexFacts
  import opened CorrelationIds
  import opened Drafts
  import opened Emissions
  import Infrastructure
  import CertificateRules
  import Providers
  import Shared
  import opened Correlate

  /** Identifiers of this investigation name what they are made of. */
  ghost predicate Named(s: Store, naming: Naming)
  {
    && Readable(naming.display, KnownTo(IndexOf(s)))
    && NoCollision(naming, BuiltFrom(AllEmitted(IndexOf(s)), IndexOf(s), naming))
  }

  /** A reported correlation of this kind about these subjects. */
  ghost predicate Reports(s: Store, naming: Naming, kind: CorrelationKind, subjects: seq<Entity>)
  {
    exists c :: c in ReportOf(s, naming).correlations && c.kind == kind && c.subjects == subjects
  }

  ghost predicate Emits(log: seq<Emission>, kind: CorrelationKind, subjects: seq<Entity>)
  {
    exists e :: e in log && e.kind == kind && Unique(e.draft.subjects, EntityKey) == subjects
  }

  lemma BuiltAt(log: seq<Emission>, ix: EvidenceIndex, naming: Naming, built: seq<Correlation>, i: nat)
    requires Grounded(ix) && AllDerived(ix, log) && built == BuiltFrom(log, ix, naming) && i < |log|
    ensures |built| == |log| && built[i].kind == log[i].kind
    ensures built[i].subjects == Unique(log[i].draft.subjects, EntityKey)
  {
    NothingRejected(log, ix, naming);
  }

  /** What is listed of the drafts of a log. */
  lemma ArrangedExactly(log: seq<Emission>, ix: EvidenceIndex, naming: Naming, built: seq<Correlation>,
                        kind: CorrelationKind, subjects: seq<Entity>)
    requires Grounded(ix) && AllDerived(ix, log) && built == BuiltFrom(log, ix, naming)
    requires Readable(naming.display, SubjectsOf(built)) && Identified(naming, built) && NoCollision(naming, built)
    ensures (exists c :: c in Arranged(built) && c.kind == kind && c.subjects == subjects) <==> Emits(log, kind, subjects)
  {
    if c :| c in Arranged(built) && c.kind == kind && c.subjects == subjects {
      ReportedIsBuilt(built, c);
      BuiltDrafted(log, ix, naming, built, c);
    }
    if Emits(log, kind, subjects) {
      var e :| e in log && e.kind == kind && Unique(e.draft.subjects, EntityKey) == subjects;
      var i :| 0 <= i < |log| && log[i] == e;
      BuiltAt(log, ix, naming, built, i);
      var c := DroppedIsRepeated(built, naming, built[i]);
    }
  }

  lemma BuiltDrafted(log: seq<Emission>, ix: EvidenceIndex, naming: Naming, built: seq<Correlation>, c: Correlation)
    requires Grounded(ix) && AllDerived(ix, log) && built == BuiltFrom(log, ix, naming) && c in built
    ensures Emits(log, c.kind, c.subjects)
  {
    NothingRejected(log, ix, naming);
    var i :| 0 <= i < |built| && built[i] == c;
    BuiltAt(log, ix, naming, built, i);
    assert log[i] in log;
  }

  /** The report has a correlation about some subjects exactly when some rule drafts
      one: nothing is rejected, and the dedup keeps one of each. */
  lemma ReportedExactly(s: Store, naming: Naming, kind: CorrelationKind, subjects: seq<Entity>)
    requires Sound(s) && Named(s, naming)
    ensures Reports(s, naming, kind, subjects) <==> Emits(AllEmitted(IndexOf(s)), kind, subjects)
  {
    IndexIsGrounded(s);
    EverythingDerived(IndexOf(s));
    FromLog(AllEmitted(IndexOf(s)), IndexOf(s), naming, kind, subjects);
  }

  lemma FromLog(log: seq<Emission>, ix: EvidenceIndex, naming: Naming, kind: CorrelationKind, subjects: seq<Entity>)
    requires Grounded(ix) && AllDerived(ix, log)
    requires Readable(naming.display, KnownTo(ix)) && NoCollision(naming, BuiltFrom(log, ix, naming))
    ensures (exists c :: c in Arranged(BuiltFrom(log, ix, naming)) && c.kind == kind && c.subjects == subjects)
            <==> Emits(log, kind, subjects)
  {
    var built := BuiltFrom(log, ix, naming);
    BuiltIdentified(log, ix, naming);
    BuiltSubjects(log, ix, naming);
    ReadableSubset(naming.display, KnownTo(ix), SubjectsOf(built));
    ArrangedExactly(log, ix, naming, built, kind, subjects);
  }

  // ------------------------------------------------------------ provider drafts

  ghost predicate OfKinds(log: seq<Emission>, kinds: set<CorrelationKind>)
  {
    forall e :: e in log ==> e.kind in kinds
  }

  lemma MoreKinds(log: seq<Emission>, kind: CorrelationKind, d: Option<Draft>)
    requires OfKinds(log, {kind})
    ensures OfKinds(log + Emitting(kind, d), {kind})
  {
  }

  lemma {:induction false} DraftedKind(ix: EvidenceIndex, resolutions: seq<Relationship>, n: nat)
    requires Wired(ix) && n <= |resolutions|
    ensures OfKinds(Infrastructure.Drafted(ix, resolutions, n), {DomainIpInfrastructure})
  {
    if n > 0 {
      DraftedKind(ix, resolutions, n - 1);
      MoreKinds(Infrastructure.Drafted(ix, resolutions, n - 1), DomainIpInfrastructure, Infrastructure.DraftFor(ix, resolutions[n - 1]));
    }
  }

  lemma {:induction false} GroupsKind(links: seq<Relationship>, shared: seq<Entity>, n: nat)
    requires n <= |shared|
    ensures OfKinds(Shared.GroupsUpTo(links, shared, n), {SharedInfrastructure})
  {
    if n > 0 {
      GroupsKind(links, shared, n - 1);
      MoreKinds(Shared.GroupsUpTo(links, shared, n - 1), SharedInfrastructure, Shared.GroupFor(links, shared[n - 1]));
    }
  }

  lemma TargetGroupsKind(links: seq<Relationship>)
    ensures OfKinds(Shared.TargetGroups(links), {SharedInfrastructure})
  {
    var shared := Ascending(Shared.EndSet(links, false), EntityKey);
    GroupsKind(links, shared, |shared|);
  }

  lemma CertificateGroupsKind(links: seq<Relationship>, certs: seq<Entity>)
    ensures OfKinds(Shared.CertificateGroups(links, certs), {SharedInfrastructure})
  {
  }

  lemma FourKinds(a: seq<Emission>, b: seq<Emission>, c: seq<Emission>, d: seq<Emission>, kinds: set<CorrelationKind>)
    requires OfKinds(a, kinds) && OfKinds(b, kinds) && OfKinds(c, kinds) && OfKinds(d, kinds)
    ensures OfKinds(a + b + c + d, kinds)
  {
  }

  lemma SharedKind(ix: EvidenceIndex)
    ensures OfKinds(Shared.Emitted(ix), {SharedInfrastructure})
  {
    var covering := Shared.Covering(ix);
    var kept := Shared.Kept(Shared.Ranked(covering));
    TargetGroupsKind(OfKind(ix, AnnouncedBy));
    TargetGroupsKind(OfKind(ix, RegisteredIn));
    TargetGroupsKind(OfKind(ix, ResolvesTo));
    CertificateGroupsKind(covering, kept);
    FourKinds(Shared.TargetGroups(OfKind(ix, AnnouncedBy)), Shared.TargetGroups(OfKind(ix, RegisteredIn)),
              Shared.TargetGroups(OfKind(ix, ResolvesTo)), Shared.CertificateGroups(covering, kept), {SharedInfrastructure});
  }

  lemma CertificatesKind(ix: EvidenceIndex)
    requires Wired(ix)
    ensures OfKinds(CertificateRules.Emitted(ix), {DomainCertificate, CtDnsNames})
  {
    match ix.target {
      case Domain(name) =>
        TwoEmitted(CertificateRules.DomainDraft(ix, name), CertificateRules.CtDraft(ix, name));
      case _ =>
    }
  }

  lemma TwoEmitted(a: Option<Draft>, b: Option<Draft>)
    ensures OfKinds(Emitting(DomainCertificate, a) + Emitting(CtDnsNames, b), {DomainCertificate, CtDnsNames})
  {
  }

  lemma InThird(a: seq<Emission>, b: seq<Emission>, c: seq<Emission>, d: seq<Emission>, e: Emission)
    requires OfKinds(a, {DomainIpInfrastructure}) && OfKinds(b, {DomainCertificate, CtDnsNames})
    requires OfKinds(d, {SharedInfrastructure}) && (e.kind.MultipleSources? || e.kind.SourceDisagreement?)
    ensures e in a + b + c + d <==> e in c
  {
  }

  /** Only the provider rules draft these kinds. */
  lemma FromProviders(ix: EvidenceIndex, e: Emission)
    requires Wired(ix) && (e.kind.MultipleSources? || e.kind.SourceDisagreement?)
    ensures e in AllEmitted(ix) <==> e in Providers.Emitted(ix)
  {
    var resolutions := OfKind(ix, ResolvesTo);
    DraftedKind(ix, resolutions, |resolutions|);
    SharedKind(ix);
    CertificatesKind(ix);
    InThird(Infrastructure.Emitted(ix), CertificateRules.Emitted(ix), Providers.Emitted(ix), Shared.Emitted(ix), e);
  }

  ghost predicate EmittedAt(ix: EvidenceIndex, ind: Indicator, e: Emission)
  {
    e in Providers.EmittedFor(ind, ObservationsAbout(ix, ind))
  }

  lemma {:induction false} StageMembers(stages: seq<seq<Emission>>, parts: seq<seq<Emission>>, n: nat, e: Emission)
    requires Staged(stages, parts) && n <= |parts|
    ensures e in stages[n] <==> exists i :: 0 <= i < n && e in parts[i]
  {
    if n > 0 {
      StageMembers(stages, parts, n - 1, e);
      assert stages[n - 1 + 1] == stages[n - 1] + parts[n - 1];
    }
  }

  lemma UpToMembers(ix: EvidenceIndex, indicators: seq<Indicator>, e: Emission)
    ensures e in Providers.EmittedUpTo(ix, indicators, |indicators|) <==>
              exists i :: 0 <= i < |indicators| && EmittedAt(ix, indicators[i], e)
  {
    var stages, parts := Providers.Stages(ix, indicators), Providers.Parts(ix, indicators);
    StageMembers(stages, parts, |indicators|, e);
    forall i | 0 <= i < |indicators| ensures e in parts[i] <==> EmittedAt(ix, indicators[i], e) {
    }
  }

  lemma SomeIndicator(ix: EvidenceIndex, indicators: seq<Indicator>, known: set<Indicator>, e: Emission)
    requires forall ind :: ind in indicators <==> ind in known
    ensures (exists i :: 0 <= i < |indicators| && EmittedAt(ix, indicators[i], e)) <==>
              exists ind :: ind in known && EmittedAt(ix, ind, e)
  {
    if i :| 0 <= i < |indicators| && EmittedAt(ix, indicators[i], e) {
      assert indicators[i] in indicators;
    }
  }

  lemma ProviderMembers(ix: EvidenceIndex, e: Emission)
    ensures e in Providers.Emitted(ix) <==> exists ind :: ind in ix.byIndicator.Keys && EmittedAt(ix, ind, e)
  {
    var indicators := Ascending(ix.byIndicator.Keys, IndicatorKey);
    UpToMembers(ix, indicators, e);
    SomeIndicator(ix, indicators, ix.byIndicator.Keys, e);
  }

  function Alone(ind: Indicator): (subjects: seq<Entity>) { [IndicatorEntity(ind)] }

  lemma AloneUnique(ind: Indicator)
    ensures Unique(Alone(ind), EntityKey) == Alone(ind)
  {
    assert Alone(ind)[1..] == [];
    assert SortBy(Alone(ind), EntityKey) == Alone(ind);
  }

  ghost predicate DraftsOn(ix: EvidenceIndex, ind: Indicator)
  {
    Providers.DisagreementFor(ind, Providers.ClaimsOf(ObservationsAbout(ix, ind))).Some?
  }

  lemma AtIndicator(ix: EvidenceIndex, ind: Indicator, e: Emission)
    requires EmittedAt(ix, ind, e) && e.kind.SourceDisagreement?
    ensures DraftsOn(ix, ind) && e.draft.subjects == Alone(ind)
  {
  }

  /** The disagreement drafts about an indicator. */
  lemma DisagreementEmitted(ix: EvidenceIndex, ind: Indicator)
    requires Wired(ix)
    ensures Emits(AllEmitted(ix), SourceDisagreement, Alone(ind)) <==> ind in ix.byIndicator && DraftsOn(ix, ind)
  {
    if Emits(AllEmitted(ix), SourceDisagreement, Alone(ind)) {
      var e :| e in AllEmitted(ix) && e.kind == SourceDisagreement && Unique(e.draft.subjects, EntityKey) == Alone(ind);
      EmittedIsDrafted(ix, ind, e);
    }
    if ind in ix.byIndicator && DraftsOn(ix, ind) { DisagreementIsEmitted(ix, ind); }
  }

  lemma EmittedIsDrafted(ix: EvidenceIndex, ind: Indicator, e: Emission)
    requires Wired(ix) && e in AllEmitted(ix) && e.kind == SourceDisagreement
    requires Unique(e.draft.subjects, EntityKey) == Alone(ind)
    ensures ind in ix.byIndicator && DraftsOn(ix, ind)
  {
    FromProviders(ix, e);
    ProviderMembers(ix, e);
    var other :| other in ix.byIndicator.Keys && EmittedAt(ix, other, e);
    AtIndicator(ix, other, e);
    AloneUnique(other);
    assert Alone(other)[0] == Alone(ind)[0];
  }

  lemma DisagreementIsEmitted(ix: EvidenceIndex, ind: Indicator)
    requires Wired(ix) && ind in ix.byIndicator && DraftsOn(ix, ind)
    ensures Emits(AllEmitted(ix), SourceDisagreement, Alone(ind))
  {
    var claims := Providers.ClaimsOf(ObservationsAbout(ix, ind));
    var e := Emission(SourceDisagreement, Providers.DisagreementFor(ind, claims).value);
    Providers.DisagreementExactly(ind, claims);
    assert EmittedAt(ix, ind, e);
    ProviderMembers(ix, e);
    FromProviders(ix, e);
    AloneUnique(ind);
  }

  /** The observations listed about an indicator: those that are first with their
      identifier. */
  lemma ListedExactly(s: Store, ind: Indicator, o: Observation)
    ensures ind in IndexOf(s).byIndicator && o in IndexOf(s).byIndicator[ind] <==>
              o in Firsts(s.observations) && o.indicator == ind
  {
    var firsts := Firsts(s.observations);
    SortBySorts(About(firsts, ind), ObservationKey);
    AboutMembers(firsts, ind);
    if o in firsts && o.indicator == ind {
      var i :| 0 <= i < |firsts| && firsts[i] == o;
      assert firsts[i].indicator in Subjects(firsts);
    }
  }

  /** Two indexed observations of an indicator make claims that cannot both be read
      the same way. */
  ghost predicate Disputed(s: Store, ind: Indicator)
  {
    exists a, b :: a in Firsts(s.observations) && b in Firsts(s.observations) && Opposing(a, b, ind)
  }

  ghost predicate Opposing(a: Observation, b: Observation, ind: Indicator)
  {
    && a.indicator == ind && b.indicator == ind && ClaimOf(a).Some? && ClaimOf(b).Some?
    && Providers.Opposed(ClaimOf(a).value, ClaimOf(b).value)
  }

  lemma DraftedIfDisputed(s: Store, ind: Indicator)
    ensures ind in IndexOf(s).byIndicator && DraftsOn(IndexOf(s), ind) <==> Disputed(s, ind)
  {
    forall o ensures ind in IndexOf(s).byIndicator && o in IndexOf(s).byIndicator[ind]
                     <==> o in Firsts(s.observations) && o.indicator == ind
    {
      ListedExactly(s, ind, o);
    }
    ListDisputed(IndexOf(s), Firsts(s.observations), s, ind);
  }

  lemma ListDisputed(ix: EvidenceIndex, firsts: seq<Observation>, s: Store, ind: Indicator)
    requires firsts == Firsts(s.observations)
    requires forall o :: ind in ix.byIndicator && o in ix.byIndicator[ind] <==> o in firsts && o.indicator == ind
    ensures ind in ix.byIndicator && DraftsOn(ix, ind) <==> Disputed(s, ind)
  {
    if ind in ix.byIndicator {
      var os := ix.byIndicator[ind];
      ClaimsDisputed(ind, os);
      assert forall o :: o in os <==> o in firsts && o.indicator == ind;
    }
  }

  lemma ClaimsDisputed(ind: Indicator, os: seq<Observation>)
    requires forall o :: o in os ==> o.indicator == ind
    ensures Providers.DisagreementFor(ind, Providers.ClaimsOf(os)).Some? <==>
              exists a, b :: a in os && b in os && Opposing(a, b, ind)
  {
    Providers.DisagreementExactly(ind, Providers.ClaimsOf(os));
    Providers.ClaimMembers(os);
    ObservationsBehind(ind, os, Providers.ClaimsOf(os));
  }

  lemma ObservationsBehind(ind: Indicator, os: seq<Observation>, claims: seq<ProviderClaim>)
    requires forall o :: o in os ==> o.indicator == ind
    requires forall c :: c in claims <==> exists o :: o in os && ClaimOf(o) == Some(c)
    ensures (exists a, b :: a in claims && b in claims && Providers.Opposed(a, b)) <==>
              exists a, b :: a in os && b in os && Opposing(a, b, ind)
  {
    if c, d :| c in claims && d in claims && Providers.Opposed(c, d) {
      var a :| a in os && ClaimOf(a) == Some(c);
      var b :| b in os && ClaimOf(b) == Some(d);
      assert Opposing(a, b, ind);
    }
    if a, b :| a in os && b in os && Opposing(a, b, ind) {
      assert ClaimOf(a).value in claims && ClaimOf(b).value in claims;
    }
  }

  /** The report of a sound investigation states a disagreement about an indicator
      exactly when two of its observations oppose each other there. */
  lemma DisagreementReportedExactly(s: Store, naming: Naming, ind: Indicator)
    requires Sound(s) && Named(s, naming)
    ensures Reports(s, naming, SourceDisagreement, [IndicatorEntity(ind)]) <==> Disputed(s, ind)
  {
    ReportedExactly(s, naming, SourceDisagreement, Alone(ind));
    IndexWired(s);
    DisagreementEmitted(IndexOf(s), ind);
    DraftedIfDisputed(s, ind);
  }
}
