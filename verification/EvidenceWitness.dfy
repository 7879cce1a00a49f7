/** Two sound investigations with the same evidence and different reports: a
    network whose registration was reported twice, in one order and in the other,
    and an address announced under a prefix that does not overlap it. */
module EvidenceWitness {
  import opened Results
  import opened Ordering
  import opened Net
  import opened Model
  import opened Investigation
  import opened Index
  import opened IndexFacts
  import opened CorrelationIds
  import opened Drafts
  import opened Emissions
  import opened EvidenceOrder
  import Infrastructure
  import CertificateRules
  import Providers
  import Shared
  import Correlate

  // ---------------------------------------------------------- sequences of one

  lemma Alone<T(!new)>(s: seq<T>, x: T)
    requires NoDuplicates(s) && forall y :: y in s <==> y == x
    ensures s == [x]
  {
    assert x in s;
    assert forall i :: 0 <= i < |s| ==> s[i] in s;
    OnceEach(s, [x]);
    assert |s| == |multiset(s)| == 1;
  }

  // ----------------------------------------------------------- the investigation

  const ADDRESS: Indicator := Ipv4(0x0808_0808)
  const ROUTED: IpPrefix := IpPrefix(IpAddr.V4(0x0808_0800), 24)
  const REGISTERED: IpPrefix := IpPrefix(IpAddr.V4(0x0909_0900), 24)

  function Announcement(): (o: Observation)
  {
    Observation(1, ADDRESS, "routing", 0, AsnOrigin(Some(ROUTED)), 50)
  }

  function Registration(id: ObservationId): (o: Observation)
  {
    Observation(id, ADDRESS, "registry", 0, NetworkRegistration(IpAddr.V4(0x0808_0808), None, None), 50)
  }

  function Resolves(): (r: Relationship)
  {
    Relationship(Edge(ResolvesTo, IndicatorEntity(Domain("example.org")), IndicatorEntity(ADDRESS)), [1])
  }

  function Announces(): (r: Relationship)
  {
    Relationship(Edge(AnnouncedBy, IndicatorEntity(ADDRESS), AutonomousSystem(15169)), [1])
  }

  function Registers(x: ObservationId, y: ObservationId): (r: Relationship)
  {
    Relationship(Edge(RegisteredIn, IndicatorEntity(ADDRESS), Network(REGISTERED)), [x, y])
  }

  /** The registration was reported by observation `x` first, then by `y`. */
  function Reported(x: ObservationId, y: ObservationId): (s: Store)
  {
    Store(ADDRESS, 0, None, [Announcement(), Registration(2), Registration(3)],
          [Resolves(), Announces(), Registers(x, y)], [], [])
  }

  ghost predicate Two(x: ObservationId, y: ObservationId)
  {
    (x == 2 && y == 3) || (x == 3 && y == 2)
  }

  lemma Holds(x: ObservationId, y: ObservationId)
    ensures var s := Reported(x, y); Known(s, 1) && Known(s, 2) && Known(s, 3)
  {
    var os := Reported(x, y).observations;
    assert os[0].id == 1 && os[1].id == 2 && os[2].id == 3;
  }

  lemma ReportedSound(x: ObservationId, y: ObservationId)
    requires Two(x, y)
    ensures Sound(Reported(x, y)) && UniqueIds(Reported(x, y).observations)
  {
    Holds(x, y);
    LinksSound(x, y);
  }

  lemma LinksSound(x: ObservationId, y: ObservationId)
    requires Two(x, y)
    ensures WellFormed(Resolves()) && WellFormed(Announces()) && WellFormed(Registers(x, y))
  {
  }

  /** What the index of this investigation says. */
  ghost predicate Scene(ix: EvidenceIndex, x: ObservationId, y: ObservationId)
  {
    && Grounded(ix) && ix.target == ADDRESS && NoDuplicates(ix.relationships)
    && (forall r :: r in ix.relationships <==> r == Resolves() || r == Announces() || r == Registers(x, y))
    && 1 in ix.byId && ix.byId[1] == Announcement()
    && forall ind, o :: ind in ix.byIndicator && o in ix.byIndicator[ind] ==> ClaimOf(o) == None
  }

  lemma ThreeLinks(x: ObservationId, y: ObservationId)
    ensures forall r :: r in Reported(x, y).relationships <==> r == Resolves() || r == Announces() || r == Registers(x, y)
  {
    var rels := Reported(x, y).relationships;
    assert rels[0] == Resolves() && rels[1] == Announces() && rels[2] == Registers(x, y);
  }

  lemma Listed(s: Store)
    requires EdgesApart(s.relationships)
    ensures var rels := IndexOf(s).relationships;
      NoDuplicates(rels) && forall r :: r in rels <==> r in s.relationships
  {
    CanonicalList(s);
    SameMembers(IndexOf(s).relationships, s.relationships);
  }

  lemma Unclaimed(s: Store)
    requires forall o :: o in s.observations ==> ClaimOf(o) == None
    ensures forall ind, o :: ind in IndexOf(s).byIndicator && o in IndexOf(s).byIndicator[ind] ==> ClaimOf(o) == None
  {
    forall ind, o | ind in IndexOf(s).byIndicator && o in IndexOf(s).byIndicator[ind] ensures ClaimOf(o) == None {
      ListedObservation(s, ind, o);
      FindObservationMeaning(s.observations, o.id);
    }
  }

  lemma FirstFound(s: Store, o: Observation)
    requires s.observations != [] && s.observations[0] == o
    ensures o.id in IndexOf(s).byId && IndexOf(s).byId[o.id] == o
  {
    assert FindObservation(s.observations, o.id) == Some(o);
    ObservationLookup(s, o.id);
  }

  lemma SceneOf(s: Store, x: ObservationId, y: ObservationId)
    requires Sound(s) && s.target == ADDRESS && s.observations != [] && s.observations[0] == Announcement()
    requires forall r :: r in s.relationships <==> r == Resolves() || r == Announces() || r == Registers(x, y)
    requires forall o :: o in s.observations ==> ClaimOf(o) == None
    ensures Scene(IndexOf(s), x, y)
  {
    IndexIsGrounded(s);
    Listed(s);
    FirstFound(s, Announcement());
    Unclaimed(s);
  }

  lemma SceneSet(x: ObservationId, y: ObservationId)
    requires Two(x, y)
    ensures Scene(IndexOf(Reported(x, y)), x, y)
  {
    ReportedSound(x, y);
    ThreeLinks(x, y);
    SceneOf(Reported(x, y), x, y);
  }

  lemma KindAlone(ix: EvidenceIndex, kind: RelationKind, r: Relationship)
    requires NoDuplicates(ix.relationships) && forall l :: l in ix.relationships && l.edge.kind == kind <==> l == r
    ensures OfKind(ix, kind) == [r]
  {
    OfKindMembers(ix, kind);
    FilterApart(ix.relationships, (r: Relationship) => r.edge.kind == kind);
    Alone(OfKind(ix, kind), r);
  }

  lemma NoneOf(ix: EvidenceIndex, kind: RelationKind)
    requires forall l :: l in ix.relationships ==> l.edge.kind != kind
    ensures OfKind(ix, kind) == []
  {
    OfKindMembers(ix, kind);
    Nothing(OfKind(ix, kind));
  }

  lemma FromAlone(ix: EvidenceIndex, kind: RelationKind, e: Entity, r: Relationship)
    requires Wired(ix) && NoDuplicates(ix.relationships)
    requires forall l :: l in ix.relationships && l.edge.kind == kind && l.edge.source == e <==> l == r
    ensures From(ix, kind, e) == [r]
  {
    WiredScan(ix, kind, e, true);
    LookupMembers(ix, kind, e);
    FilterApart(ix.relationships, (r: Relationship) => r.edge.kind == kind && End(r, true) == e);
    Alone(From(ix, kind, e), r);
  }

  // ---------------------------------------------------------------- one emission

  ghost function OnlyDraft(ix: EvidenceIndex, x: ObservationId, y: ObservationId): (d: Draft)
  {
    Infrastructure.ContextDraft(ix, Resolves(), IpAddr.V4(0x0808_0808), ADDRESS, [Announces()], [Registers(x, y)])
  }

  lemma OnlyFor(ix: EvidenceIndex, x: ObservationId, y: ObservationId)
    requires Scene(ix, x, y)
    ensures Infrastructure.DraftFor(ix, Resolves()) == Some(OnlyDraft(ix, x, y))
  {
    FromLinks(ix, x, y);
    DraftWith(ix, Resolves(), [Announces()], [Registers(x, y)]);
  }

  lemma FromLinks(ix: EvidenceIndex, x: ObservationId, y: ObservationId)
    requires Scene(ix, x, y)
    ensures From(ix, AnnouncedBy, IndicatorEntity(ADDRESS)) == [Announces()]
    ensures From(ix, RegisteredIn, IndicatorEntity(ADDRESS)) == [Registers(x, y)]
  {
    FromAlone(ix, AnnouncedBy, IndicatorEntity(ADDRESS), Announces());
    FromAlone(ix, RegisteredIn, IndicatorEntity(ADDRESS), Registers(x, y));
  }

  lemma DraftOf(ix: EvidenceIndex, resolves: Relationship, ip: IpAddr)
    requires Wired(ix) && IpOf(resolves.edge.target) == Some(ip)
    requires From(ix, AnnouncedBy, resolves.edge.target) != []
    ensures Infrastructure.DraftFor(ix, resolves)
         == Some(Infrastructure.ContextDraft(ix, resolves, ip, resolves.edge.target.indicator,
                                             From(ix, AnnouncedBy, resolves.edge.target),
                                             From(ix, RegisteredIn, resolves.edge.target)))
  {
  }

  lemma DraftWith(ix: EvidenceIndex, resolves: Relationship, announced: seq<Relationship>, registered: seq<Relationship>)
    requires Wired(ix) && resolves.edge.target == IndicatorEntity(ADDRESS) && announced != []
    requires From(ix, AnnouncedBy, resolves.edge.target) == announced
    requires From(ix, RegisteredIn, resolves.edge.target) == registered
    ensures Infrastructure.DraftFor(ix, resolves)
         == Some(Infrastructure.ContextDraft(ix, resolves, IpAddr.V4(0x0808_0808), ADDRESS, announced, registered))
  {
    DraftOf(ix, resolves, IpAddr.V4(0x0808_0808));
  }

  lemma InfrastructureEmits(ix: EvidenceIndex, x: ObservationId, y: ObservationId)
    requires Scene(ix, x, y)
    ensures Infrastructure.Emitted(ix) == [Emission(DomainIpInfrastructure, OnlyDraft(ix, x, y))]
  {
    KindAlone(ix, ResolvesTo, Resolves());
    OnlyFor(ix, x, y);
    OneDrafted(ix, Resolves(), OnlyDraft(ix, x, y));
  }

  lemma OneDrafted(ix: EvidenceIndex, r: Relationship, d: Draft)
    requires Wired(ix) && Infrastructure.DraftFor(ix, r) == Some(d)
    ensures Infrastructure.Drafted(ix, [r], 1) == [Emission(DomainIpInfrastructure, d)]
  {
    assert Infrastructure.Drafted(ix, [r], 0) == [];
  }

  lemma {:induction false} NoClaims(os: seq<Observation>)
    requires forall o :: o in os ==> ClaimOf(o) == None
    ensures Providers.ClaimsOf(os) == []
  {
    if os != [] {
      assert os[0] in os;
      NoClaims(os[1..]);
    }
  }

  lemma SilentFor(ix: EvidenceIndex, ind: Indicator)
    requires ind in ix.byIndicator ==> forall o :: o in ix.byIndicator[ind] ==> ClaimOf(o) == None
    ensures Providers.EmittedFor(ind, ObservationsAbout(ix, ind)) == []
  {
    NoClaims(ObservationsAbout(ix, ind));
  }

  lemma {:induction false} SilentStages(stages: seq<seq<Emission>>, parts: seq<seq<Emission>>, n: nat)
    requires Staged(stages, parts) && n <= |parts| && forall i :: 0 <= i < |parts| ==> parts[i] == []
    ensures stages[n] == []
  {
    if n > 0 {
      SilentStages(stages, parts, n - 1);
      assert stages[n - 1 + 1] == stages[n - 1] + parts[n - 1];
    }
  }

  lemma ProvidersSilent(ix: EvidenceIndex)
    requires forall ind, o :: ind in ix.byIndicator && o in ix.byIndicator[ind] ==> ClaimOf(o) == None
    ensures Providers.Emitted(ix) == []
  {
    var indicators := Ascending(ix.byIndicator.Keys, IndicatorKey);
    var parts := Providers.Parts(ix, indicators);
    forall i | 0 <= i < |parts| ensures parts[i] == [] { SilentFor(ix, indicators[i]); }
    Providers.InStages(ix, indicators);
    SilentStages(Providers.Stages(ix, indicators), parts, |indicators|);
  }

  lemma {:induction false} NoGroups(links: seq<Relationship>, shared: seq<Entity>, n: nat)
    requires n <= |shared| && forall e :: |Shared.Members(links, false, e)| < 2
    ensures Shared.GroupsUpTo(links, shared, n) == []
  {
    if n > 0 { NoGroups(links, shared, n - 1); }
  }

  lemma OneLinkNoGroup(l: Relationship)
    ensures Shared.TargetGroups([l]) == []
  {
    forall e ensures |Shared.Members([l], false, e)| < 2 { Shared.SeveralMembers([l], e); }
    var shared := Ascending(Shared.EndSet([l], false), EntityKey);
    NoGroups([l], shared, |shared|);
  }

  lemma NoCertificates(links: seq<Relationship>)
    requires links == []
    ensures Shared.CertificateGroups(links, Shared.Kept(Shared.Ranked(links))) == []
  {
    Shared.RankedMembers(links);
    assert Shared.EndSet(links, true) == {};
    Nothing(Shared.Ranked(links));
  }

  lemma SharedEmits(ix: EvidenceIndex, x: ObservationId, y: ObservationId)
    requires Scene(ix, x, y)
    ensures Shared.Emitted(ix) == []
  {
    KindAlone(ix, ResolvesTo, Resolves());
    KindAlone(ix, AnnouncedBy, Announces());
    KindAlone(ix, RegisteredIn, Registers(x, y));
    NoneOf(ix, CoversName);
    NoneOf(ix, CoversWildcard);
    OneLinkNoGroup(Announces());
    OneLinkNoGroup(Registers(x, y));
    OneLinkNoGroup(Resolves());
    NoCertificates(Shared.Covering(ix));
  }

  lemma OneEmission(ix: EvidenceIndex, x: ObservationId, y: ObservationId)
    requires Scene(ix, x, y)
    ensures Correlate.AllEmitted(ix) == [Emission(DomainIpInfrastructure, OnlyDraft(ix, x, y))]
  {
    InfrastructureEmits(ix, x, y);
    ProvidersSilent(ix);
    SharedEmits(ix, x, y);
    CertificatesSilent(ix);
    OnlyFirst(Infrastructure.Emitted(ix), CertificateRules.Emitted(ix), Providers.Emitted(ix), Shared.Emitted(ix));
  }

  lemma CertificatesSilent(ix: EvidenceIndex)
    requires Wired(ix) && ix.target.Ipv4?
    ensures CertificateRules.Emitted(ix) == []
  {
  }

  lemma OnlyFirst(a: seq<Emission>, b: seq<Emission>, c: seq<Emission>, d: seq<Emission>)
    requires b == [] && c == [] && d == []
    ensures a + b + c + d == a
  {
  }

  // ------------------------------------------------------------- its conflict

  lemma Blocks()
    ensures BlockSize(ROUTED) == 256 && BlockSize(REGISTERED) == 256 && ValidPrefix(ROUTED) && ValidPrefix(REGISTERED)
  {
    NewPrefixAccepts(ROUTED.network, 24);
    NewPrefixAccepts(REGISTERED.network, 24);
    assert Pow2(8) == 256;
  }

  lemma Prefixes24()
    ensures Contains(ROUTED, IpAddr.V4(0x0808_0808)) && !Overlaps(ROUTED, REGISTERED)
  {
    Blocks();
    ContainsIsInterval(ROUTED, IpAddr.V4(0x0808_0808));
    ContainsIsInterval(ROUTED, REGISTERED.network);
    ContainsIsInterval(REGISTERED, ROUTED.network);
  }

  /** The routing conflict that cites the announcement and one registration. */
  function Apart(reporter: ObservationId): (c: Conflict)
  {
    Conflict(PrefixesApart(ROUTED, [REGISTERED], IpAddr.V4(0x0808_0808)), [1, reporter])
  }

  lemma Networks(x: ObservationId, y: ObservationId)
    ensures Infrastructure.RegisteredPrefixes([Registers(x, y)]) == [(REGISTERED, x)]
    ensures Infrastructure.Prefixes([(REGISTERED, x)]) == [REGISTERED] && Infrastructure.Reporters([(REGISTERED, x)]) == [x]
  {
    assert [Registers(x, y)][1..] == [];
  }

  lemma Announced(links: seq<Relationship>)
    requires links == [Announces()]
    ensures Infrastructure.CitedBy(links) == {1}
  {
    assert Announces() in links && 1 in Announces().evidence;
  }

  lemma IsolatedOne(a: IpPrefix, b: IpPrefix)
    requires !Overlaps(a, b)
    ensures Infrastructure.Isolated(a, [b])
  {
  }

  lemma ConflictContained(ix: EvidenceIndex, x: ObservationId, registered: seq<Relationship>)
    requires 1 in ix.byId && ix.byId[1] == Announcement()
    requires Infrastructure.RegisteredPrefixes(registered) == [(REGISTERED, x)]
    ensures Apart(x) in Infrastructure.Containment(ix, IpAddr.V4(0x0808_0808), [Announces()], registered)
  {
    Announced([Announces()]);
    assert Infrastructure.Prefixes([(REGISTERED, x)]) == [REGISTERED] && Infrastructure.Reporters([(REGISTERED, x)]) == [x];
    assert Infrastructure.ReportedPrefix(ix, 1) == Some(ROUTED);
    assert Contains(ROUTED, IpAddr.V4(0x0808_0808)) && Infrastructure.Isolated(ROUTED, [REGISTERED]) by {
      Prefixes24();
      IsolatedOne(ROUTED, REGISTERED);
    }
    Infrastructure.ApartExactly(ix, IpAddr.V4(0x0808_0808), [Announces()], registered, ROUTED, 1);
    assert [1] + [x] == [1, x];
  }

  lemma ConflictFound(ix: EvidenceIndex, x: ObservationId, y: ObservationId)
    requires 1 in ix.byId && ix.byId[1] == Announcement()
    ensures Apart(x) in OnlyDraft(ix, x, y).conflicts
  {
    Networks(x, y);
    ConflictContained(ix, x, [Registers(x, y)]);
  }

  /** Every routing conflict of the draft cites no other registration. */
  lemma OnlyReporter(ix: EvidenceIndex, ip: IpAddr, x: ObservationId, y: ObservationId, registered: seq<Relationship>, c: Conflict)
    requires Two(x, y) && Infrastructure.RegisteredPrefixes(registered) == [(REGISTERED, x)]
    requires c in Infrastructure.Containment(ix, ip, [Announces()], registered) && c.about.PrefixesApart?
    ensures y !in c.evidence
  {
    var bgp := Infrastructure.Announcing(ix, ip, [Announces()]);
    Announced([Announces()]);
    assert Infrastructure.Reporters([(REGISTERED, x)]) == [x];
    Infrastructure.ContainmentParts(ix, ip, [Announces()], registered, c);
    Infrastructure.ApartConflictMembers(bgp, [(REGISTERED, x)], ip, |bgp|);
    var i :| 0 <= i < |bgp| && c.evidence == [bgp[i].1] + [x];
    assert bgp[i] in bgp;
    Infrastructure.AnnouncingMembers(ix, ip, [Announces()], bgp[i].0, bgp[i].1);
  }

  lemma SideAbout(m: map<ObservationId, set<Entity>>, about: Dispute, c: Conflict)
    requires c in Infrastructure.Disagreement(m, about)
    ensures c.about == about
  {
  }

  lemma FromContainment(ix: EvidenceIndex, ip: IpAddr, announced: seq<Relationship>, registered: seq<Relationship>, c: Conflict)
    requires c in Infrastructure.Conflicts(ix, ip, announced, registered) && c.about.PrefixesApart?
    ensures c in Infrastructure.Containment(ix, ip, announced, registered)
  {
    var m, n := Infrastructure.PerObservation(announced), Infrastructure.PerObservation(registered);
    if c in Infrastructure.Disagreement(m, OriginsDiffer(ip, m.Values)) {
      SideAbout(m, OriginsDiffer(ip, m.Values), c);
    } else if c in Infrastructure.Disagreement(n, NetworksDiffer(ip, n.Values)) {
      SideAbout(n, NetworksDiffer(ip, n.Values), c);
    }
  }

  lemma DraftReporter(ix: EvidenceIndex, x: ObservationId, y: ObservationId, c: Conflict)
    requires Two(x, y) && c in OnlyDraft(ix, x, y).conflicts && c.about.PrefixesApart?
    ensures y !in c.evidence
  {
    Networks(x, y);
    FromContainment(ix, IpAddr.V4(0x0808_0808), [Announces()], [Registers(x, y)], c);
    OnlyReporter(ix, IpAddr.V4(0x0808_0808), x, y, [Registers(x, y)], c);
  }

  // ------------------------------------------------------------------ the result

  lemma OneCorrelation(ix: EvidenceIndex, x: ObservationId, y: ObservationId, naming: Naming) returns (c: Correlation)
    requires Scene(ix, x, y)
    ensures Correlate.ReportFrom(ix, naming).correlations == [c]
    ensures Built(OnlyDraft(ix, x, y), DomainIpInfrastructure, ix, naming) == Ok(c)
  {
    OneEmission(ix, x, y);
    Correlate.EverythingDerived(ix);
    NothingRejected(Correlate.AllEmitted(ix), ix, naming);
    var built := BuiltFrom(Correlate.AllEmitted(ix), ix, naming);
    c := built[0];
    assert built == [c];
    OneArranged(c);
  }

  lemma OneArranged(c: Correlation)
    ensures Correlate.Arranged([c]) == [c]
  {
    assert [c][1..] == [] && SortBy([c], Correlate.CorrelationKey) == [c];
  }

  lemma RoutingConflict(ix: EvidenceIndex, x: ObservationId, y: ObservationId, naming: Naming, c: Correlation) returns (k: nat)
    requires Two(x, y) && Scene(ix, x, y) && Built(OnlyDraft(ix, x, y), DomainIpInfrastructure, ix, naming) == Ok(c)
    ensures k < |c.conflicts| && c.conflicts[k].about.PrefixesApart? && x in c.conflicts[k].evidence
    ensures forall j :: 0 <= j < |c.conflicts| && c.conflicts[j].about.PrefixesApart? ==> y !in c.conflicts[j].evidence
  {
    var d := OnlyDraft(ix, x, y);
    ConflictFound(ix, x, y);
    k :| 0 <= k < |d.conflicts| && d.conflicts[k] == Apart(x);
    BuiltConflicts(d, DomainIpInfrastructure, ix, naming, k);
    assert Apart(x).evidence[1] == x;
    forall j | 0 <= j < |c.conflicts| && c.conflicts[j].about.PrefixesApart? ensures y !in c.conflicts[j].evidence {
      BuiltConflicts(d, DomainIpInfrastructure, ix, naming, j);
      DraftReporter(ix, x, y, d.conflicts[j]);
    }
  }

  lemma ReportedConflict(x: ObservationId, y: ObservationId, naming: Naming) returns (c: Correlation, k: nat)
    requires Two(x, y)
    ensures Correlate.ReportOf(Reported(x, y), naming).correlations == [c]
    ensures k < |c.conflicts| && c.conflicts[k].about.PrefixesApart? && x in c.conflicts[k].evidence
    ensures forall j :: 0 <= j < |c.conflicts| && c.conflicts[j].about.PrefixesApart? ==> y !in c.conflicts[j].evidence
  {
    SceneSet(x, y);
    c := OneCorrelation(IndexOf(Reported(x, y)), x, y, naming);
    k := RoutingConflict(IndexOf(Reported(x, y)), x, y, naming, c);
  }

  lemma SameTwo(x: ObservationId, y: ObservationId)
    requires Two(x, y)
    ensures SameFacts(Reported(x, y), Reported(y, x))
  {
    var a, b := Reported(x, y).relationships, Reported(y, x).relationships;
    ReportedSound(x, y);
    ReportedSound(y, x);
    forall e ensures EvidenceFor(a, e) == EvidenceFor(b, e) && (e in EdgeMap(a) <==> e in EdgeMap(b)) {
      SameEvidenceFor(x, y, e);
    }
    assert EdgeMap(a).Keys == EdgeMap(b).Keys;
  }

  lemma SameEvidenceFor(x: ObservationId, y: ObservationId, e: Edge)
    ensures var a, b := Reported(x, y).relationships, Reported(y, x).relationships;
      EvidenceFor(a, e) == EvidenceFor(b, e) && (e in EdgeMap(a) <==> e in EdgeMap(b))
  {
    EdgePresent(Reported(x, y).relationships, e);
    EdgePresent(Reported(y, x).relationships, e);
    ThreeLinks(x, y);
    ThreeLinks(y, x);
    assert forall id :: id in [x, y] <==> id in [y, x];
  }

  lemma NotAmong(c: Conflict, ds: seq<Conflict>, id: ObservationId)
    requires c.about.PrefixesApart? && id in c.evidence
    requires forall j :: 0 <= j < |ds| && ds[j].about.PrefixesApart? ==> id !in ds[j].evidence
    ensures c !in ds
  {
  }

  lemma ConflictDiffers(naming: Naming, x: ObservationId, y: ObservationId) returns (c: Correlation, d: Correlation, k: nat)
    requires Two(x, y)
    ensures Correlate.ReportOf(Reported(x, y), naming).correlations == [c]
    ensures Correlate.ReportOf(Reported(y, x), naming).correlations == [d]
    ensures k < |c.conflicts| && c.conflicts[k] !in d.conflicts
  {
    c, k := ReportedConflict(x, y, naming);
    var j;
    d, j := ReportedConflict(y, x, naming);
    NotAmong(c.conflicts[k], d.conflicts, x);
  }

  lemma BothSound(x: ObservationId, y: ObservationId)
    requires Two(x, y)
    ensures Sound(Reported(x, y)) && Sound(Reported(y, x)) && SameFacts(Reported(x, y), Reported(y, x))
  {
    SameTwo(x, y);
    ReportedSound(x, y);
    ReportedSound(y, x);
  }

  /** Both investigations are sound and hold the same evidence, yet a routing
      conflict of the one correlation of the first is not in the one correlation of
      the second: it cites the registration that came first. So the reporters are
      rightly excepted. */
  lemma ReportersDiffer(naming: Naming) returns (s: Store, t: Store, c: Correlation, d: Correlation, k: nat)
    ensures Sound(s) && Sound(t) && SameFacts(s, t)
    ensures Correlate.ReportOf(s, naming).correlations == [c] && Correlate.ReportOf(t, naming).correlations == [d]
    ensures k < |c.conflicts| && c.conflicts[k] !in d.conflicts
  {
    s, t := Reported(2, 3), Reported(3, 2);
    BothSound(2, 3);
    c, d, k := ConflictDiffers(naming, 2, 3);
  }
}
