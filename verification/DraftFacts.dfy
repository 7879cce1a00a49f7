/** Every draft reaches the report. Drafts of one kind with the same subjects are the
    same draft, so what the report drops as repeated is equal to what it keeps. */
module DraftFacts {
  import opened Results
  import opened Ordering
  import opened Model
  import opened Investigation
  import opened Index
  import opened IndexFacts
  import opened CorrelationIds
  import opened Drafts
  import opened Emissions
  import opened Infrastructure
  import CertificateRules
  import Providers
  import Shared
  import opened Correlate
  import opened ReportFacts

  // -------------------------------------------------- drafts about an address

  ghost predicate DraftedFrom(ix: EvidenceIndex, r: Relationship, e: Emission)
    requires Wired(ix)
  {
    e.kind.DomainIpInfrastructure? && DraftFor(ix, r) == Some(e.draft)
  }

  lemma ProviderKinds(ix: EvidenceIndex, ind: Indicator, e: Emission)
    requires EmittedAt(ix, ind, e)
    ensures e.kind.MultipleSources? || e.kind.SourceDisagreement?
  {
  }

  lemma NotByProviders(ix: EvidenceIndex, e: Emission)
    requires e.kind.DomainIpInfrastructure?
    ensures e !in Providers.Emitted(ix)
  {
    ProviderMembers(ix, e);
    if ind :| ind in ix.byIndicator.Keys && EmittedAt(ix, ind, e) { ProviderKinds(ix, ind, e); }
  }

  lemma InFirst(a: seq<Emission>, b: seq<Emission>, c: seq<Emission>, d: seq<Emission>, e: Emission)
    requires OfKinds(b, {DomainCertificate, CtDnsNames}) && e !in c
    requires OfKinds(d, {SharedInfrastructure}) && e.kind.DomainIpInfrastructure?
    ensures e in a + b + c + d <==> e in a
  {
  }

  /** Only the rule about addresses drafts this kind. */
  lemma OnlyInfrastructure(ix: EvidenceIndex, e: Emission)
    requires Wired(ix) && e.kind.DomainIpInfrastructure?
    ensures e in AllEmitted(ix) <==> e in Infrastructure.Emitted(ix)
  {
    SharedKind(ix);
    CertificatesKind(ix);
    NotByProviders(ix, e);
    InFirst(Infrastructure.Emitted(ix), CertificateRules.Emitted(ix), Providers.Emitted(ix), Shared.Emitted(ix), e);
  }

  lemma PartMembers(ix: EvidenceIndex, resolutions: seq<Relationship>, e: Emission)
    requires Wired(ix)
    ensures forall i :: 0 <= i < |resolutions| ==> (e in DraftParts(ix, resolutions)[i] <==> DraftedFrom(ix, resolutions[i], e))
  {
  }

  lemma DraftedMembers(ix: EvidenceIndex, resolutions: seq<Relationship>, e: Emission)
    requires Wired(ix)
    ensures e in Drafted(ix, resolutions, |resolutions|) <==> exists r :: r in resolutions && DraftedFrom(ix, r, e)
  {
    var stages, parts := DraftStages(ix, resolutions), DraftParts(ix, resolutions);
    DraftsStaged(ix, resolutions);
    StageMembers(stages, parts, |resolutions|, e);
    PartMembers(ix, resolutions, e);
    if r :| r in resolutions && DraftedFrom(ix, r, e) {
      var i :| 0 <= i < |resolutions| && resolutions[i] == r;
    }
  }

  /** The subjects of a draft tell its resolution: its domain is the only one among
      them, and so is its address. */
  lemma SubjectsTell(ix: EvidenceIndex, r: Relationship, q: Relationship)
    requires Grounded(ix) && r in OfKind(ix, ResolvesTo) && q in OfKind(ix, ResolvesTo)
    requires DraftFor(ix, r).Some? && DraftFor(ix, q).Some?
    requires Unique(DraftFor(ix, r).value.subjects, EntityKey) == Unique(DraftFor(ix, q).value.subjects, EntityKey)
    ensures r == q
  {
    OfKindMembers(ix, ResolvesTo);
    SubjectTypes(ix, r);
    SubjectTypes(ix, q);
    SameSubjects(DraftFor(ix, r).value.subjects, DraftFor(ix, q).value.subjects);
    assert r.edge == q.edge;
    SameEdge(ix, r, q);
  }

  lemma SameSubjects(a: seq<Entity>, b: seq<Entity>)
    requires Unique(a, EntityKey) == Unique(b, EntityKey)
    ensures forall e :: e in a <==> e in b
  {
    EntitiesApart(a);
    EntitiesApart(b);
    UniqueMeaning(a, EntityKey);
    UniqueMeaning(b, EntityKey);
  }

  lemma SameEdge(ix: EvidenceIndex, r: Relationship, q: Relationship)
    requires EdgesApart(ix.relationships) && r in ix.relationships && q in ix.relationships && r.edge == q.edge
    ensures r == q
  {
    var i :| 0 <= i < |ix.relationships| && ix.relationships[i] == r;
    var j :| 0 <= j < |ix.relationships| && ix.relationships[j] == q;
  }

  lemma SubjectTypes(ix: EvidenceIndex, r: Relationship)
    requires Grounded(ix) && r in ix.relationships && r.edge.kind == ResolvesTo && DraftFor(ix, r).Some?
    ensures var subjects := DraftFor(ix, r).value.subjects;
      && (forall e :: e in subjects && TypeOf(e) == DomainType <==> e == r.edge.source)
      && (forall e :: e in subjects && TypeOf(e).IsIp() <==> e == r.edge.target)
  {
    var both := From(ix, AnnouncedBy, r.edge.target) + From(ix, RegisteredIn, r.edge.target);
    assert GroundedLink(ix, r);
    BothTypes(ix, r.edge.target);
    SubjectsAre(ix, r, both);
    EndTypes(r, Targets(both));
  }

  lemma EndTypes(r: Relationship, others: seq<Entity>)
    requires TypeOf(r.edge.source) == DomainType && TypeOf(r.edge.target).IsIp()
    requires forall e :: e in others ==> TypeOf(e) != DomainType && !TypeOf(e).IsIp()
    ensures var subjects := [r.edge.source, r.edge.target] + others;
      && (forall e :: e in subjects && TypeOf(e) == DomainType <==> e == r.edge.source)
      && (forall e :: e in subjects && TypeOf(e).IsIp() <==> e == r.edge.target)
  {
    assert forall e :: e in [r.edge.source, r.edge.target] + others <==> e == r.edge.source || e == r.edge.target || e in others;
  }

  lemma BothTypes(ix: EvidenceIndex, target: Entity)
    requires Grounded(ix)
    ensures var both := From(ix, AnnouncedBy, target) + From(ix, RegisteredIn, target);
      forall e :: e in Targets(both) ==> TypeOf(e) != DomainType && !TypeOf(e).IsIp()
  {
    LookupMembers(ix, AnnouncedBy, target);
    LookupMembers(ix, RegisteredIn, target);
    ContextTypes(ix, From(ix, AnnouncedBy, target) + From(ix, RegisteredIn, target));
  }

  lemma SubjectsAre(ix: EvidenceIndex, r: Relationship, both: seq<Relationship>)
    requires Wired(ix) && DraftFor(ix, r).Some?
    requires both == From(ix, AnnouncedBy, r.edge.target) + From(ix, RegisteredIn, r.edge.target)
    ensures DraftFor(ix, r).value.subjects == [r.edge.source, r.edge.target] + Targets(both)
  {
  }

  lemma ContextTypes(ix: EvidenceIndex, links: seq<Relationship>)
    requires Grounded(ix) && ExistingLinks(ix, links)
    requires forall l :: l in links ==> l.edge.kind == AnnouncedBy || l.edge.kind == RegisteredIn
    ensures forall e :: e in Targets(links) ==> TypeOf(e) != DomainType && !TypeOf(e).IsIp()
  {
    forall e | e in Targets(links) ensures TypeOf(e) != DomainType && !TypeOf(e).IsIp() {
      var i :| 0 <= i < |links| && Targets(links)[i] == e;
      assert links[i] in links && GroundedLink(ix, links[i]);
    }
  }

  // ------------------------------------------------------- drafts about a domain

  lemma ByCertificates(a: seq<Emission>, b: seq<Emission>, c: seq<Emission>, d: seq<Emission>, e: Emission)
    requires OfKinds(a, {DomainIpInfrastructure}) && e !in c && OfKinds(d, {SharedInfrastructure})
    requires e.kind.DomainCertificate? || e.kind.CtDnsNames?
    ensures e in a + b + c + d <==> e in b
  {
  }

  lemma NotProvidersKind(ix: EvidenceIndex, e: Emission)
    requires !e.kind.MultipleSources? && !e.kind.SourceDisagreement?
    ensures e !in Providers.Emitted(ix)
  {
    ProviderMembers(ix, e);
    if ind :| ind in ix.byIndicator.Keys && EmittedAt(ix, ind, e) { ProviderKinds(ix, ind, e); }
  }

  lemma OnlyCertificates(ix: EvidenceIndex, e: Emission)
    requires Wired(ix) && (e.kind.DomainCertificate? || e.kind.CtDnsNames?)
    ensures e in AllEmitted(ix) <==> e in CertificateRules.Emitted(ix)
  {
    var resolutions := OfKind(ix, ResolvesTo);
    DraftedKind(ix, resolutions, |resolutions|);
    SharedKind(ix);
    NotProvidersKind(ix, e);
    ByCertificates(Infrastructure.Emitted(ix), CertificateRules.Emitted(ix), Providers.Emitted(ix), Shared.Emitted(ix), e);
  }

  /** Of a target that is a domain there is at most one draft of each kind. */
  lemma CertificateMembers(ix: EvidenceIndex, e: Emission)
    requires Wired(ix) && (e.kind.DomainCertificate? || e.kind.CtDnsNames?)
    ensures e in AllEmitted(ix) <==>
              && ix.target.Domain?
              && Some(e.draft) == (if e.kind.DomainCertificate? then CertificateRules.DomainDraft(ix, ix.target.name)
                                   else CertificateRules.CtDraft(ix, ix.target.name))
  {
    OnlyCertificates(ix, e);
    if ix.target.Domain? {
      OneOfTwo(CertificateRules.DomainDraft(ix, ix.target.name), CertificateRules.CtDraft(ix, ix.target.name), e);
    }
  }

  lemma OneOfTwo(a: Option<Draft>, b: Option<Draft>, e: Emission)
    requires e.kind.DomainCertificate? || e.kind.CtDnsNames?
    ensures e in Emitting(DomainCertificate, a) + Emitting(CtDnsNames, b) <==>
              Some(e.draft) == (if e.kind.DomainCertificate? then a else b)
  {
  }

  // ------------------------------------------------- drafts about shared elements

  predicate GroupedKind(kind: RelationKind)
  {
    kind.AnnouncedBy? || kind.RegisteredIn? || kind.ResolvesTo?
  }

  /** The draft groups the links of this kind that lead to `x`. */
  ghost predicate GroupedAt(ix: EvidenceIndex, kind: RelationKind, x: Entity, e: Emission)
  {
    e.kind.SharedInfrastructure? && Shared.GroupFor(OfKind(ix, kind), x) == Some(e.draft)
  }

  ghost predicate KeptCertificate(ix: EvidenceIndex, x: Entity)
  {
    x in Shared.Kept(Shared.Ranked(Shared.Covering(ix)))
  }

  lemma EmittingShared(d: Option<Draft>, e: Emission)
    ensures e in Emitting(SharedInfrastructure, d) <==> e.kind.SharedInfrastructure? && d == Some(e.draft)
  {
  }

  lemma TargetGroupMembers(links: seq<Relationship>, e: Emission)
    ensures e in Shared.TargetGroups(links) <==>
              e.kind.SharedInfrastructure? && exists x :: Shared.GroupFor(links, x) == Some(e.draft)
  {
    var shared := Ascending(Shared.EndSet(links, false), EntityKey);
    var parts := Shared.GroupParts(links, shared);
    Shared.GroupsStaged(links, shared);
    StageMembers(Shared.GroupStages(links, shared), parts, |shared|, e);
    forall i | 0 <= i < |shared|
      ensures e in parts[i] <==> e.kind.SharedInfrastructure? && Shared.GroupFor(links, shared[i]) == Some(e.draft)
    {
      EmittingShared(Shared.GroupFor(links, shared[i]), e);
    }
    forall x | Shared.GroupFor(links, x) == Some(e.draft) ensures exists i :: 0 <= i < |shared| && shared[i] == x {
      GroupedIsEnd(links, x);
      assert x in shared;
    }
  }

  lemma GroupedIsEnd(links: seq<Relationship>, x: Entity)
    requires Shared.GroupFor(links, x).Some?
    ensures x in Shared.EndSet(links, false)
  {
    Shared.GroupExactly(links, x);
    var k, l :| k in links && l in links && k.edge.target == x && l.edge.target == x && k.edge.source != l.edge.source;
    assert End(k, false) == x;
  }

  lemma CertificateGroupMembers(links: seq<Relationship>, certs: seq<Entity>, e: Emission)
    ensures e in Shared.CertificateGroups(links, certs) <==> exists x :: x in certs && e == Shared.CertificateGroup(links, x)
  {
    var groups := Shared.CertificateGroups(links, certs);
    if e in groups {
      var i :| 0 <= i < |groups| && groups[i] == e;
      assert certs[i] in certs;
    }
    if x :| x in certs && e == Shared.CertificateGroup(links, x) {
      var i :| 0 <= i < |certs| && certs[i] == x;
      assert groups[i] == e;
    }
  }

  lemma InLast(a: seq<Emission>, b: seq<Emission>, c: seq<Emission>, d: seq<Emission>, e: Emission)
    requires OfKinds(a, {DomainIpInfrastructure}) && OfKinds(b, {DomainCertificate, CtDnsNames}) && e !in c
    requires e.kind.SharedInfrastructure?
    ensures e in a + b + c + d <==> e in d
  {
  }

  lemma InOneOfFour(a: seq<Emission>, b: seq<Emission>, c: seq<Emission>, d: seq<Emission>, e: Emission)
    ensures e in a + b + c + d <==> e in a || e in b || e in c || e in d
  {
  }

  lemma OnlyShared(ix: EvidenceIndex, e: Emission)
    requires Wired(ix) && e.kind.SharedInfrastructure?
    ensures e in AllEmitted(ix) <==> e in Shared.Emitted(ix)
  {
    var resolutions := OfKind(ix, ResolvesTo);
    DraftedKind(ix, resolutions, |resolutions|);
    CertificatesKind(ix);
    NotProvidersKind(ix, e);
    InLast(Infrastructure.Emitted(ix), CertificateRules.Emitted(ix), Providers.Emitted(ix), Shared.Emitted(ix), e);
  }

  lemma GroupMembersAt(ix: EvidenceIndex, kind: RelationKind, e: Emission)
    ensures e in Shared.TargetGroups(OfKind(ix, kind)) <==> exists x :: GroupedAt(ix, kind, x, e)
  {
    TargetGroupMembers(OfKind(ix, kind), e);
    if x :| Shared.GroupFor(OfKind(ix, kind), x) == Some(e.draft) && e.kind.SharedInfrastructure? {
      assert GroupedAt(ix, kind, x, e);
    }
  }

  lemma SharedParts(ix: EvidenceIndex, e: Emission)
    ensures e in Shared.Emitted(ix) <==>
              || e in Shared.TargetGroups(OfKind(ix, AnnouncedBy)) || e in Shared.TargetGroups(OfKind(ix, RegisteredIn))
              || e in Shared.TargetGroups(OfKind(ix, ResolvesTo))
              || e in Shared.CertificateGroups(Shared.Covering(ix), Shared.Kept(Shared.Ranked(Shared.Covering(ix))))
  {
    InOneOfFour(Shared.TargetGroups(OfKind(ix, AnnouncedBy)), Shared.TargetGroups(OfKind(ix, RegisteredIn)),
                Shared.TargetGroups(OfKind(ix, ResolvesTo)),
                Shared.CertificateGroups(Shared.Covering(ix), Shared.Kept(Shared.Ranked(Shared.Covering(ix)))), e);
  }

  lemma KeptMembers(ix: EvidenceIndex, e: Emission)
    ensures e in Shared.CertificateGroups(Shared.Covering(ix), Shared.Kept(Shared.Ranked(Shared.Covering(ix)))) <==>
              exists x :: KeptCertificate(ix, x) && e == Shared.CertificateGroup(Shared.Covering(ix), x)
  {
    CertificateGroupMembers(Shared.Covering(ix), Shared.Kept(Shared.Ranked(Shared.Covering(ix))), e);
  }

  ghost predicate GroupedDraft(ix: EvidenceIndex, e: Emission)
  {
    exists kind, x :: GroupedKind(kind) && GroupedAt(ix, kind, x, e)
  }

  lemma GroupedMembers(ix: EvidenceIndex, e: Emission)
    ensures GroupedDraft(ix, e) <==>
              || e in Shared.TargetGroups(OfKind(ix, AnnouncedBy)) || e in Shared.TargetGroups(OfKind(ix, RegisteredIn))
              || e in Shared.TargetGroups(OfKind(ix, ResolvesTo))
  {
    GroupMembersAt(ix, AnnouncedBy, e);
    GroupMembersAt(ix, RegisteredIn, e);
    GroupMembersAt(ix, ResolvesTo, e);
  }

  /** The drafts about shared elements: one for each element of the three kinds that
      two links lead to from different sources, and one for each certificate kept. */
  lemma SharedMembers(ix: EvidenceIndex, e: Emission)
    requires Wired(ix) && e.kind.SharedInfrastructure?
    ensures e in AllEmitted(ix) <==>
              GroupedDraft(ix, e) || exists x :: KeptCertificate(ix, x) && e == Shared.CertificateGroup(Shared.Covering(ix), x)
  {
    OnlyShared(ix, e);
    SharedParts(ix, e);
    GroupedMembers(ix, e);
    KeptMembers(ix, e);
  }

  /** How an entity type stands among those of a group: the shared element stands
      above its members. */
  function TypeRank(t: EntityType): (r: nat)
  {
    if t.DomainType? then 0 else if t.IsIp() then 1 else 2
  }

  ghost predicate Heads(subjects: seq<Entity>, x: Entity)
  {
    x in subjects && forall y :: y in subjects && y != x ==> TypeRank(TypeOf(y)) < TypeRank(TypeOf(x))
  }

  lemma OneHead(a: seq<Entity>, b: seq<Entity>, x: Entity, y: Entity)
    requires Heads(a, x) && Heads(b, y) && forall e :: e in a <==> e in b
    ensures x == y
  {
  }

  lemma GroupSubjects(x: Entity, members: set<Entity>, links: seq<Relationship>)
    ensures forall e :: e in Shared.GroupDraft(x, members, links).subjects <==> e == x || e in members
  {
    var listed := Ascending(members, EntityKey);
    assert forall e :: e in listed <==> e in members;
  }

  /** Links that lead from members of lower types to elements of a higher one. */
  ghost predicate Rising(links: seq<Relationship>, atSource: bool)
  {
    forall l :: l in links ==> TypeRank(TypeOf(End(l, !atSource))) < TypeRank(TypeOf(End(l, atSource)))
  }

  lemma RisingHeads(links: seq<Relationship>, atSource: bool, x: Entity)
    requires Rising(links, atSource)
    ensures Heads(Shared.GroupDraft(x, Shared.Members(links, atSource, x), Shared.Ending(links, atSource, x)).subjects, x)
  {
    Shared.EndingMembers(links, atSource, x);
    GroupSubjects(x, Shared.Members(links, atSource, x), Shared.Ending(links, atSource, x));
    forall m | m in Shared.Members(links, atSource, x) ensures TypeRank(TypeOf(m)) < TypeRank(TypeOf(x)) {
      var l :| l in Shared.Ending(links, atSource, x) && End(l, !atSource) == m;
    }
  }

  /** The type of what links of this kind lead to. */
  ghost predicate Fits(kind: RelationKind, t: EntityType)
  {
    match kind
    case AnnouncedBy => t == AutonomousSystemType
    case RegisteredIn => t == NetworkType
    case ResolvesTo => t.IsIp()
    case _ => false
  }

  lemma GroupedLinks(ix: EvidenceIndex, kind: RelationKind)
    requires Grounded(ix) && GroupedKind(kind)
    ensures Rising(OfKind(ix, kind), false) && forall l :: l in OfKind(ix, kind) ==> Fits(kind, TypeOf(l.edge.target))
  {
    OfKindMembers(ix, kind);
    forall l | l in OfKind(ix, kind)
      ensures TypeRank(TypeOf(End(l, true))) < TypeRank(TypeOf(End(l, false))) && Fits(kind, TypeOf(l.edge.target))
    {
      assert GroundedLink(ix, l);
    }
  }

  lemma GroupHeads(ix: EvidenceIndex, kind: RelationKind, x: Entity)
    requires Grounded(ix) && GroupedKind(kind) && Shared.GroupFor(OfKind(ix, kind), x).Some?
    ensures Heads(Shared.GroupFor(OfKind(ix, kind), x).value.subjects, x) && Fits(kind, TypeOf(x))
  {
    GroupedLinks(ix, kind);
    RisingHeads(OfKind(ix, kind), false, x);
    GroupedIsEnd(OfKind(ix, kind), x);
    var l :| l in OfKind(ix, kind) && End(l, false) == x;
  }

  lemma CoveringLinks(ix: EvidenceIndex)
    requires Grounded(ix)
    ensures Rising(Shared.Covering(ix), true)
    ensures forall l :: l in Shared.Covering(ix) ==> TypeOf(l.edge.source) == CertificateType
  {
    OfKindMembers(ix, CoversName);
    OfKindMembers(ix, CoversWildcard);
    forall l | l in Shared.Covering(ix)
      ensures TypeRank(TypeOf(End(l, false))) < TypeRank(TypeOf(End(l, true))) && TypeOf(l.edge.source) == CertificateType
    {
      assert GroundedLink(ix, l);
    }
  }

  lemma KeptIsEnd(links: seq<Relationship>, x: Entity)
    requires x in Shared.Kept(Shared.Ranked(links))
    ensures x in Shared.EndSet(links, true)
  {
    var kept := Shared.Kept(Shared.Ranked(links));
    Shared.KeptAreCertificates(links, kept);
    var i :| 0 <= i < |kept| && kept[i] == x;
  }

  lemma CertificateHeads(ix: EvidenceIndex, x: Entity)
    requires Grounded(ix) && KeptCertificate(ix, x)
    ensures Heads(Shared.CertificateGroup(Shared.Covering(ix), x).draft.subjects, x) && TypeOf(x) == CertificateType
  {
    CoveringLinks(ix);
    RisingHeads(Shared.Covering(ix), true, x);
    KeptIsEnd(Shared.Covering(ix), x);
    var l :| l in Shared.Covering(ix) && End(l, true) == x;
  }

  /** The draft is about this shared element, as its type tells. */
  ghost predicate AboutShared(ix: EvidenceIndex, e: Emission, x: Entity)
  {
    && Heads(e.draft.subjects, x)
    && match TypeOf(x)
       case CertificateType => e == Shared.CertificateGroup(Shared.Covering(ix), x)
       case AutonomousSystemType => GroupedAt(ix, AnnouncedBy, x, e)
       case NetworkType => GroupedAt(ix, RegisteredIn, x, e)
       case _ => GroupedAt(ix, ResolvesTo, x, e)
  }

  lemma SharedHead(ix: EvidenceIndex, e: Emission) returns (x: Entity)
    requires Grounded(ix) && e.kind.SharedInfrastructure? && e in AllEmitted(ix)
    ensures AboutShared(ix, e, x)
  {
    SharedMembers(ix, e);
    if GroupedDraft(ix, e) {
      var kind, y :| GroupedKind(kind) && GroupedAt(ix, kind, y, e);
      GroupHeads(ix, kind, y);
      x := y;
    } else {
      x :| KeptCertificate(ix, x) && e == Shared.CertificateGroup(Shared.Covering(ix), x);
      CertificateHeads(ix, x);
    }
  }

  // ---------------------------------------------------------- subjects tell drafts

  lemma SharedTold(ix: EvidenceIndex, e: Emission, f: Emission)
    requires Grounded(ix) && e in AllEmitted(ix) && f in AllEmitted(ix)
    requires e.kind.SharedInfrastructure? && f.kind.SharedInfrastructure?
    requires forall x :: x in e.draft.subjects <==> x in f.draft.subjects
    ensures e == f
  {
    var x := SharedHead(ix, e);
    var y := SharedHead(ix, f);
    OneHead(e.draft.subjects, f.draft.subjects, x, y);
    SameShared(ix, e, f, x);
  }

  lemma SameShared(ix: EvidenceIndex, e: Emission, f: Emission, x: Entity)
    requires AboutShared(ix, e, x) && AboutShared(ix, f, x) && e.kind == f.kind
    ensures e == f
  {
  }

  /** The draft of this kind about the claims on an indicator. */
  ghost predicate AboutClaims(ix: EvidenceIndex, ind: Indicator, e: Emission)
  {
    && ind in ix.byIndicator && e.draft.subjects == Alone(ind)
    && var claims := Providers.ClaimsOf(ObservationsAbout(ix, ind));
       Some(e.draft) == (if e.kind.MultipleSources? then Providers.SeveralFor(ind, claims) else Providers.DisagreementFor(ind, claims))
  }

  /** The drafts about claims. */
  lemma ClaimDrafts(ix: EvidenceIndex, e: Emission)
    requires Wired(ix) && (e.kind.MultipleSources? || e.kind.SourceDisagreement?)
    ensures e in AllEmitted(ix) <==> exists ind :: AboutClaims(ix, ind, e)
  {
    FromProviders(ix, e);
    ProviderMembers(ix, e);
    forall ind | ind in ix.byIndicator ensures EmittedAt(ix, ind, e) <==> AboutClaims(ix, ind, e) { AtIndicatorExactly(ix, ind, e); }
    if e in AllEmitted(ix) {
      var ind :| ind in ix.byIndicator.Keys && EmittedAt(ix, ind, e);
      assert AboutClaims(ix, ind, e);
    }
    if ind :| AboutClaims(ix, ind, e) {
      assert ind in ix.byIndicator.Keys && EmittedAt(ix, ind, e);
    }
  }

  lemma EmittingOne(kind: CorrelationKind, d: Option<Draft>, e: Emission)
    ensures e in Emitting(kind, d) <==> e.kind == kind && d == Some(e.draft)
  {
  }

  lemma NoClaimsNoDraft(ind: Indicator)
    ensures Providers.SeveralFor(ind, []) == None && Providers.DisagreementFor(ind, []) == None
  {
    Providers.SeveralExactly(ind, []);
    Providers.DisagreementExactly(ind, []);
  }

  lemma DraftedAlone(ind: Indicator, claims: seq<ProviderClaim>)
    ensures Providers.SeveralFor(ind, claims).Some? ==> Providers.SeveralFor(ind, claims).value.subjects == Alone(ind)
    ensures Providers.DisagreementFor(ind, claims).Some? ==> Providers.DisagreementFor(ind, claims).value.subjects == Alone(ind)
  {
  }

  lemma AtIndicatorExactly(ix: EvidenceIndex, ind: Indicator, e: Emission)
    requires ind in ix.byIndicator && (e.kind.MultipleSources? || e.kind.SourceDisagreement?)
    ensures EmittedAt(ix, ind, e) <==> AboutClaims(ix, ind, e)
  {
    var claims := Providers.ClaimsOf(ObservationsAbout(ix, ind));
    EmittingOne(MultipleSources, Providers.SeveralFor(ind, claims), e);
    EmittingOne(SourceDisagreement, Providers.DisagreementFor(ind, claims), e);
    NoClaimsNoDraft(ind);
    DraftedAlone(ind, claims);
  }

  lemma ProvidersTold(ix: EvidenceIndex, e: Emission, f: Emission)
    requires Wired(ix) && e in AllEmitted(ix) && f in AllEmitted(ix) && e.kind == f.kind
    requires e.kind.MultipleSources? || e.kind.SourceDisagreement?
    requires forall x :: x in e.draft.subjects <==> x in f.draft.subjects
    ensures e == f
  {
    ClaimDrafts(ix, e);
    ClaimDrafts(ix, f);
    var i :| AboutClaims(ix, i, e);
    var j :| AboutClaims(ix, j, f);
    SameAlone(i, j);
    SameClaims(ix, i, e, f);
  }

  lemma SameAlone(i: Indicator, j: Indicator)
    requires forall x :: x in Alone(i) <==> x in Alone(j)
    ensures i == j
  {
    assert Alone(i)[0] in Alone(j);
  }

  lemma SameClaims(ix: EvidenceIndex, ind: Indicator, e: Emission, f: Emission)
    requires AboutClaims(ix, ind, e) && AboutClaims(ix, ind, f) && e.kind == f.kind
    ensures e == f
  {
  }

  lemma AddressesTold(ix: EvidenceIndex, e: Emission, f: Emission)
    requires Grounded(ix) && e in AllEmitted(ix) && f in AllEmitted(ix)
    requires e.kind.DomainIpInfrastructure? && f.kind.DomainIpInfrastructure?
    requires Unique(e.draft.subjects, EntityKey) == Unique(f.draft.subjects, EntityKey)
    ensures e == f
  {
    OnlyInfrastructure(ix, e);
    OnlyInfrastructure(ix, f);
    DraftedMembers(ix, OfKind(ix, ResolvesTo), e);
    DraftedMembers(ix, OfKind(ix, ResolvesTo), f);
    var r :| r in OfKind(ix, ResolvesTo) && DraftedFrom(ix, r, e);
    var q :| q in OfKind(ix, ResolvesTo) && DraftedFrom(ix, q, f);
    SubjectsTell(ix, r, q);
  }

  /** Drafts of one kind with the same subjects are the same draft. */
  lemma DraftsTold(ix: EvidenceIndex, e: Emission, f: Emission)
    requires Grounded(ix) && e in AllEmitted(ix) && f in AllEmitted(ix) && e.kind == f.kind
    requires Unique(e.draft.subjects, EntityKey) == Unique(f.draft.subjects, EntityKey)
    ensures e == f
  {
    SameSubjects(e.draft.subjects, f.draft.subjects);
    match e.kind
    case DomainIpInfrastructure => AddressesTold(ix, e, f);
    case DomainCertificate => CertificateMembers(ix, e); CertificateMembers(ix, f);
    case CtDnsNames => CertificateMembers(ix, e); CertificateMembers(ix, f);
    case MultipleSources => ProvidersTold(ix, e, f);
    case SourceDisagreement => ProvidersTold(ix, e, f);
    case SharedInfrastructure => SharedTold(ix, e, f);
  }

  // -------------------------------------------------------------- what is reported

  lemma DraftBehind(s: Store, naming: Naming, c: Correlation) returns (e: Emission)
    requires Sound(s) && Wired(IndexOf(s)) && c in ReportOf(s, naming).correlations
    ensures e in AllEmitted(IndexOf(s)) && Built(e.draft, e.kind, IndexOf(s), naming) == Ok(c)
  {
    var i := ReportedFromDraft(s, naming, c);
    e := AllEmitted(IndexOf(s))[i];
  }

  lemma BuiltKind(d: Draft, kind: CorrelationKind, ix: EvidenceIndex, naming: Naming)
    requires Built(d, kind, ix, naming).Ok?
    ensures Built(d, kind, ix, naming).value.kind == kind
    ensures Built(d, kind, ix, naming).value.subjects == Unique(d.subjects, EntityKey)
  {
  }

  lemma BuiltMember(s: Store, naming: Naming, log: seq<Emission>, e: Emission) returns (c: Correlation)
    requires Sound(s) && Wired(IndexOf(s)) && log == AllEmitted(IndexOf(s)) && e in log
    ensures c in BuiltFrom(log, IndexOf(s), naming) && Built(e.draft, e.kind, IndexOf(s), naming) == Ok(c)
  {
    IndexIsGrounded(s);
    EverythingDerived(IndexOf(s));
    NothingRejected(log, IndexOf(s), naming);
    var i :| 0 <= i < |log| && log[i] == e;
    c := BuiltFrom(log, IndexOf(s), naming)[i];
  }

  /** The correlation comes from a draft of the rules. */
  ghost predicate Comes(s: Store, naming: Naming, e: Emission, c: Correlation)
    requires Wired(IndexOf(s))
  {
    e in AllEmitted(IndexOf(s)) && Built(e.draft, e.kind, IndexOf(s), naming) == Ok(c)
  }

  /** The report keeps a correlation of the same kind about the same subjects. */
  lemma KeptLike(s: Store, naming: Naming, c: Correlation) returns (d: Correlation)
    requires Sound(s) && Named(s, naming) && Wired(IndexOf(s)) && c in BuiltFrom(AllEmitted(IndexOf(s)), IndexOf(s), naming)
    ensures d in ReportOf(s, naming).correlations && d.kind == c.kind && d.subjects == c.subjects
  {
    var ix := IndexOf(s);
    var built := BuiltFrom(AllEmitted(ix), ix, naming);
    BuiltIdentified(AllEmitted(ix), ix, naming);
    BuiltSubjects(AllEmitted(ix), ix, naming);
    ReadableSubset(naming.display, KnownTo(ix), SubjectsOf(built));
    d := DroppedIsRepeated(built, naming, c);
  }

  lemma SameDraft(ix: EvidenceIndex, naming: Naming, e: Emission, c: Correlation, f: Emission, d: Correlation)
    requires Grounded(ix) && e in AllEmitted(ix) && f in AllEmitted(ix)
    requires Built(e.draft, e.kind, ix, naming) == Ok(c) && Built(f.draft, f.kind, ix, naming) == Ok(d)
    requires d.kind == c.kind && d.subjects == c.subjects
    ensures d == c
  {
    BuiltKind(e.draft, e.kind, ix, naming);
    BuiltKind(f.draft, f.kind, ix, naming);
    DraftsTold(ix, e, f);
  }

  /** Every draft is built and its correlation reported. */
  lemma DraftReported(s: Store, naming: Naming, e: Emission) returns (c: Correlation)
    requires Sound(s) && Named(s, naming) && Wired(IndexOf(s)) && e in AllEmitted(IndexOf(s))
    ensures c in ReportOf(s, naming).correlations && Comes(s, naming, e, c)
  {
    c := BuiltMember(s, naming, AllEmitted(IndexOf(s)), e);
    var d := KeptLike(s, naming, c);
    var f := DraftBehind(s, naming, d);
    IndexIsGrounded(s);
    SameDraft(IndexOf(s), naming, e, c, f, d);
  }

  /** The report lists exactly the correlations built from the drafts of the rules:
      none is rejected, and the dedup loses none. */
  lemma EveryDraftReported(s: Store, naming: Naming, c: Correlation)
    requires Sound(s) && Named(s, naming)
    ensures Wired(IndexOf(s))
    ensures c in ReportOf(s, naming).correlations <==> exists e :: Comes(s, naming, e, c)
  {
    IndexWired(s);
    if c in ReportOf(s, naming).correlations {
      var e := DraftBehind(s, naming, c);
      assert Comes(s, naming, e, c);
    }
    if e :| Comes(s, naming, e, c) {
      var d := DraftReported(s, naming, e);
    }
  }

  // ------------------------------------------------- what a correlation carries over

  ghost predicate SameIds(a: seq<ObservationId>, b: seq<ObservationId>)
  {
    forall id :: id in a <==> id in b
  }

  /** The same dispute with the same evidence, in any order. */
  ghost predicate SameConflict(x: Conflict, y: Conflict)
  {
    x.about == y.about && SameIds(x.evidence, y.evidence)
  }

  ghost predicate SameConflicts(a: seq<Conflict>, b: seq<Conflict>)
  {
    |a| == |b| && forall i :: 0 <= i < |a| ==> SameConflict(a[i], b[i])
  }

  lemma SideKept(a: seq<Conflict>, b: seq<Conflict>, x: Conflict) returns (y: Conflict)
    requires SameConflicts(a, b) && x in a
    ensures y in b && SameConflict(x, y)
  {
    var i :| 0 <= i < |a| && a[i] == x;
    y := b[i];
  }

  lemma ConflictsBack(a: seq<Conflict>, b: seq<Conflict>)
    requires SameConflicts(a, b)
    ensures SameConflicts(b, a)
  {
  }

  /** These are the caveats, in this order, but for the one about different times, which
      stands last. */
  ghost predicate Caveated(c: Correlation, caveats: seq<Caveat>)
  {
    c.limitations == caveats + (if c.first != c.last then [NotSimultaneous] else [])
  }

  /** The correlation says what the draft says: nothing is added but the caveat about
      different times, and nothing is lost. */
  ghost predicate Carries(d: Draft, c: Correlation)
  {
    && (forall x :: x in c.subjects <==> x in d.subjects)
    && (forall l :: l in c.links <==> l in d.links)
    && (forall a :: a in c.claims <==> a in d.claims)
    && SameIds(c.supporting, d.supporting) && c.gaps == d.gaps
    && (forall x :: x in c.limitations <==> x in d.limitations || (x == NotSimultaneous && c.first != c.last))
    && (Once(d.limitations) ==> Caveated(c, d.limitations))
    && SameConflicts(d.conflicts, c.conflicts)
  }

  /** What a correlation says that carries a draft without claims. */
  lemma PlainCarried(subjects: seq<Entity>, links: seq<Relationship>, supporting: seq<ObservationId>, conflicts: seq<Conflict>,
                     gaps: seq<Gap>, limitations: seq<Caveat>, c: Correlation)
    requires Carries(Draft(subjects, links, [], supporting, conflicts, gaps, limitations), c) && Once(limitations)
    ensures forall x :: x in c.subjects <==> x in subjects
    ensures forall l :: l in c.links <==> l in links
    ensures c.claims == [] && SameIds(c.supporting, supporting) && SameConflicts(conflicts, c.conflicts) && c.gaps == gaps
    ensures Caveated(c, limitations)
  {
    Nothing(c.claims);
  }

  lemma LinksCarried(d: Draft, kind: CorrelationKind, ix: EvidenceIndex, naming: Naming)
    requires Built(d, kind, ix, naming).Ok? && EdgesApart(ix.relationships) && ExistingLinks(ix, d.links)
    ensures forall l :: l in Built(d, kind, ix, naming).value.links <==> l in d.links
  {
    var c := Built(d, kind, ix, naming).value;
    BuiltLinks(d, kind, ix, naming);
    forall l | l in d.links ensures l in c.links {
      var k :| k in c.links && EdgeOf(k) == EdgeOf(l);
      SameEdge(ix, k, l);
    }
  }

  lemma ClaimsCarried(d: Draft, kind: CorrelationKind, ix: EvidenceIndex, naming: Naming)
    requires Built(d, kind, ix, naming).Ok? && CopiedClaims(ix, d.claims)
    ensures forall a :: a in Built(d, kind, ix, naming).value.claims <==> a in d.claims
  {
    BuiltClaims(d, kind, ix, naming);
  }

  lemma ConflictsCarried(d: Draft, kind: CorrelationKind, ix: EvidenceIndex, naming: Naming)
    requires Built(d, kind, ix, naming).Ok?
    ensures SameConflicts(d.conflicts, Built(d, kind, ix, naming).value.conflicts)
  {
    var c := Built(d, kind, ix, naming).value;
    assert |c.conflicts| == |d.conflicts|;
    forall i | 0 <= i < |d.conflicts|
      ensures SameConflict(d.conflicts[i], c.conflicts[i])
    {
      BuiltConflicts(d, kind, ix, naming, i);
    }
  }

  lemma DerivedCarried(ix: EvidenceIndex, naming: Naming, d: Draft, kind: CorrelationKind)
    requires Grounded(ix) && Derived(ix, d) && Built(d, kind, ix, naming).Ok?
    ensures Carries(d, Built(d, kind, ix, naming).value)
  {
    BuiltKind(d, kind, ix, naming);
    BuiltEvidence(d, kind, ix, naming);
    LinksCarried(d, kind, ix, naming);
    ClaimsCarried(d, kind, ix, naming);
    BuiltSupporting(d, kind, ix, naming);
    BuiltGaps(d, kind, ix, naming);
    BuiltLimitations(d, kind, ix, naming);
    if Once(d.limitations) { BuiltCaveats(d, kind, ix, naming); }
    ConflictsCarried(d, kind, ix, naming);
  }

  /** A reported correlation says what its draft says. */
  lemma DraftCarried(s: Store, naming: Naming, e: Emission, c: Correlation)
    requires Sound(s) && Wired(IndexOf(s)) && Comes(s, naming, e, c)
    ensures Carries(e.draft, c) && c.kind == e.kind
  {
    IndexIsGrounded(s);
    EverythingDerived(IndexOf(s));
    DerivedCarried(IndexOf(s), naming, e.draft, e.kind);
    BuiltGaps(e.draft, e.kind, IndexOf(s), naming);
  }
}
