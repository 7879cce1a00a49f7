/** Which conflicts about the routing and the registration of an address stand in
    the report of a sound investigation. */
module ConflictFacts {
  import opened Results
  import opened Ordering
  import opened Net
  import opened Model
  import opened Investigation
  import opened Index
  import opened IndexFacts
  import opened CorrelationIds
  import opened Drafts
  import opened Emissions
  import opened Infrastructure
  import opened Correlate
  import opened ReportFacts
  import opened DraftFacts

  // ----------------------------------------------------------- from draft to report

  ghost predicate States(conflicts: seq<Conflict>, about: Dispute)
  {
    exists c :: c in conflicts && c.about == about
  }

  /** A reported correlation about an address states this conflict. */
  ghost predicate ReportsConflict(s: Store, naming: Naming, about: Dispute)
  {
    exists c :: c in ReportOf(s, naming).correlations && c.kind.DomainIpInfrastructure? && States(c.conflicts, about)
  }

  /** The draft about this resolution states it. */
  ghost predicate Raises(ix: EvidenceIndex, r: Relationship, about: Dispute)
    requires Wired(ix)
  {
    r in OfKind(ix, ResolvesTo) && DraftFor(ix, r).Some? && States(DraftFor(ix, r).value.conflicts, about)
  }

  lemma BuiltStates(d: Draft, kind: CorrelationKind, ix: EvidenceIndex, naming: Naming, about: Dispute)
    requires Built(d, kind, ix, naming).Ok?
    ensures States(Built(d, kind, ix, naming).value.conflicts, about) <==> States(d.conflicts, about)
  {
    var c := Built(d, kind, ix, naming).value;
    forall i | 0 <= i < |d.conflicts| ensures |c.conflicts| == |d.conflicts| && c.conflicts[i].about == d.conflicts[i].about {
      BuiltConflicts(d, kind, ix, naming, i);
    }
    BuiltCount(d, kind, ix, naming);
    if x :| x in c.conflicts && x.about == about {
      var i :| 0 <= i < |c.conflicts| && c.conflicts[i] == x;
      assert d.conflicts[i] in d.conflicts;
    }
    if x :| x in d.conflicts && x.about == about {
      var i :| 0 <= i < |d.conflicts| && d.conflicts[i] == x;
      assert c.conflicts[i] in c.conflicts;
    }
  }

  lemma BuiltCount(d: Draft, kind: CorrelationKind, ix: EvidenceIndex, naming: Naming)
    requires Built(d, kind, ix, naming).Ok?
    ensures |Built(d, kind, ix, naming).value.conflicts| == |d.conflicts|
  {
  }

  lemma DraftRaises(ix: EvidenceIndex, e: Emission, about: Dispute)
    requires Wired(ix) && e in AllEmitted(ix) && e.kind.DomainIpInfrastructure? && States(e.draft.conflicts, about)
    ensures exists r :: Raises(ix, r, about)
  {
    OnlyInfrastructure(ix, e);
    DraftedMembers(ix, OfKind(ix, ResolvesTo), e);
    var r :| r in OfKind(ix, ResolvesTo) && DraftedFrom(ix, r, e);
    assert Raises(ix, r, about);
  }

  lemma BuiltRaises(ix: EvidenceIndex, naming: Naming, e: Emission, c: Correlation, about: Dispute)
    requires Wired(ix) && e in AllEmitted(ix) && Built(e.draft, e.kind, ix, naming) == Ok(c)
    requires c.kind.DomainIpInfrastructure? && States(c.conflicts, about)
    ensures exists r :: Raises(ix, r, about)
  {
    BuiltKind(e.draft, e.kind, ix, naming);
    BuiltStates(e.draft, e.kind, ix, naming, about);
    DraftRaises(ix, e, about);
  }

  lemma ReportedIsRaised(s: Store, naming: Naming, about: Dispute)
    requires Sound(s) && Wired(IndexOf(s)) && ReportsConflict(s, naming, about)
    ensures exists r :: Raises(IndexOf(s), r, about)
  {
    var c :| c in ReportOf(s, naming).correlations && c.kind.DomainIpInfrastructure? && States(c.conflicts, about);
    var e := DraftBehind(s, naming, c);
    BuiltRaises(IndexOf(s), naming, e, c, about);
  }

  lemma RaisedIsReported(s: Store, naming: Naming, r: Relationship, about: Dispute)
    requires Sound(s) && Named(s, naming) && Wired(IndexOf(s)) && Raises(IndexOf(s), r, about)
    ensures ReportsConflict(s, naming, about)
  {
    var ix, e := IndexOf(s), Emission(DomainIpInfrastructure, DraftFor(IndexOf(s), r).value);
    assert DraftedFrom(ix, r, e);
    DraftedMembers(ix, OfKind(ix, ResolvesTo), e);
    OnlyInfrastructure(ix, e);
    var c := DraftReported(s, naming, e);
    BuiltStates(e.draft, e.kind, ix, naming, about);
    BuiltKind(e.draft, e.kind, ix, naming);
  }

  /** A conflict is reported about an address exactly when the draft about one of its
      resolutions states it: nothing is rejected, and correlations that the dedup
      takes for one state the same. */
  lemma ConflictReportedExactly(s: Store, naming: Naming, about: Dispute)
    requires Sound(s) && Named(s, naming)
    ensures Wired(IndexOf(s))
    ensures ReportsConflict(s, naming, about) <==> exists r :: Raises(IndexOf(s), r, about)
  {
    IndexWired(s);
    if ReportsConflict(s, naming, about) { ReportedIsRaised(s, naming, about); }
    if r :| Raises(IndexOf(s), r, about) { RaisedIsReported(s, naming, r, about); }
  }

  // ------------------------------------------------------ which address it is about

  function AddressOf(about: Dispute): (r: Option<IpAddr>)
  {
    match about
    case OriginsDiffer(ip, _) => Some(ip)
    case NetworksDiffer(ip, _) => Some(ip)
    case PrefixMissesAddress(_, ip) => Some(ip)
    case RangeMissesAddress(ip) => Some(ip)
    case PrefixesApart(_, _, ip) => Some(ip)
    case _ => None
  }

  lemma DisagreementAbout(links: seq<Relationship>, about: Dispute)
    ensures States(Disagreement(PerObservation(links), about), about) <==>
              exists a, b :: a in CitedBy(links) && b in CitedBy(links) && NamedBy(links, a) != NamedBy(links, b)
    ensures forall c :: c in Disagreement(PerObservation(links), about) ==> c.about == about
  {
    Infrastructure.DisagreementExactly(links, about);
    var found := Disagreement(PerObservation(links), about);
    if found != [] { assert found[0] in found; }
  }

  lemma ContainmentAddress(ix: EvidenceIndex, ip: IpAddr, announced: seq<Relationship>, registered: seq<Relationship>, c: Conflict)
    requires c in Containment(ix, ip, announced, registered)
    ensures AddressOf(c.about) == Some(ip) && (c.about.PrefixMissesAddress? || c.about.RangeMissesAddress? || c.about.PrefixesApart?)
  {
    var a, b := Ascending(CitedBy(announced), IdKey), Ascending(CitedBy(registered), IdKey);
    var bgp := Announcing(ix, ip, announced);
    ContainmentParts(ix, ip, announced, registered, c);
    if c.about.PrefixMissesAddress? {
      PrefixConflictMembers(ix, ip, a, |a|);
    } else if c.about.RangeMissesAddress? {
      RangeConflictMembers(ix, ip, b, |b|);
    } else {
      ApartConflictMembers(bgp, RegisteredPrefixes(registered), ip, |bgp|);
    }
  }

  lemma OwnAbout(m: map<ObservationId, set<Entity>>, about: Dispute, c: Conflict)
    requires c in Disagreement(m, about)
    ensures c.about == about
  {
  }

  lemma InOneOf(a: seq<Conflict>, b: seq<Conflict>, c: seq<Conflict>, x: Conflict)
    requires x in a + b + c
    ensures x in a || x in b || x in c
  {
  }

  lemma ConflictParts(ix: EvidenceIndex, ip: IpAddr, announced: seq<Relationship>, registered: seq<Relationship>, c: Conflict)
    requires c in Conflicts(ix, ip, announced, registered)
    ensures var asns, networks := PerObservation(announced), PerObservation(registered);
      || c in Disagreement(asns, OriginsDiffer(ip, asns.Values)) || c in Disagreement(networks, NetworksDiffer(ip, networks.Values))
      || c in Containment(ix, ip, announced, registered)
  {
    var asns, networks := PerObservation(announced), PerObservation(registered);
    InOneOf(Disagreement(asns, OriginsDiffer(ip, asns.Values)), Disagreement(networks, NetworksDiffer(ip, networks.Values)),
            Containment(ix, ip, announced, registered), c);
  }

  lemma ConflictAddress(ix: EvidenceIndex, ip: IpAddr, announced: seq<Relationship>, registered: seq<Relationship>, about: Dispute)
    requires States(Conflicts(ix, ip, announced, registered), about)
    ensures AddressOf(about) == Some(ip)
  {
    var asns, networks := PerObservation(announced), PerObservation(registered);
    var c :| c in Conflicts(ix, ip, announced, registered) && c.about == about;
    ConflictParts(ix, ip, announced, registered, c);
    if c in Containment(ix, ip, announced, registered) {
      ContainmentAddress(ix, ip, announced, registered, c);
    } else if c in Disagreement(asns, OriginsDiffer(ip, asns.Values)) {
      OwnAbout(asns, OriginsDiffer(ip, asns.Values), c);
    } else {
      OwnAbout(networks, NetworksDiffer(ip, networks.Values), c);
    }
  }

  lemma NoContext(ix: EvidenceIndex, ip: IpAddr, about: Dispute)
    ensures !States(Conflicts(ix, ip, [], []), about)
  {
    assert CitedBy([]) == {};
    assert Ascending<ObservationId>({}, IdKey) == [];
    DisagreementAbout([], OriginsDiffer(ip, PerObservation([]).Values));
    DisagreementAbout([], NetworksDiffer(ip, PerObservation([]).Values));
  }

  lemma SameAddress(a: Entity, b: Entity)
    requires IpOf(a).Some? && IpOf(a) == IpOf(b)
    ensures a == b
  {
  }

  /** The conflicts the rule finds about this address. */
  ghost function About(ix: EvidenceIndex, address: Entity, ip: IpAddr): (r: seq<Conflict>)
    requires Wired(ix)
  {
    Conflicts(ix, ip, From(ix, AnnouncedBy, address), From(ix, RegisteredIn, address))
  }

  /** Some domain resolves to this address. */
  ghost predicate Resolved(s: Store, address: Entity)
  {
    exists l :: l in s.relationships && l.edge.kind == ResolvesTo && l.edge.target == address
  }

  lemma ResolvedIndexed(s: Store, address: Entity)
    requires Sound(s)
    ensures Resolved(s, address) <==> exists r :: r in OfKind(IndexOf(s), ResolvesTo) && r.edge.target == address
  {
    CanonicalList(s);
    SameMembers(IndexOf(s).relationships, s.relationships);
    OfKindMembers(IndexOf(s), ResolvesTo);
  }

  lemma RaisesAbout(ix: EvidenceIndex, r: Relationship, about: Dispute, address: Entity, ip: IpAddr)
    requires Wired(ix) && IpOf(address) == Some(ip) && AddressOf(about) == Some(ip)
    ensures Raises(ix, r, about) <==>
              r in OfKind(ix, ResolvesTo) && r.edge.target == address && States(About(ix, address, ip), about)
  {
    if IpOf(r.edge.target).Some? {
      var own := IpOf(r.edge.target).value;
      DraftStates(ix, r, own, about);
      if States(About(ix, r.edge.target, own), about) {
        ConflictAddress(ix, own, From(ix, AnnouncedBy, r.edge.target), From(ix, RegisteredIn, r.edge.target), about);
        SameAddress(r.edge.target, address);
      }
    }
  }

  lemma DraftStates(ix: EvidenceIndex, r: Relationship, ip: IpAddr, about: Dispute)
    requires Wired(ix) && IpOf(r.edge.target) == Some(ip)
    ensures DraftFor(ix, r).Some? && States(DraftFor(ix, r).value.conflicts, about) <==> States(About(ix, r.edge.target, ip), about)
  {
    NoContext(ix, ip, about);
  }

  /** A conflict about an address is reported exactly when a domain resolves to the
      address and the rule finds the conflict there. */
  lemma ReportedAbout(s: Store, naming: Naming, about: Dispute, address: Entity, ip: IpAddr)
    requires Sound(s) && Named(s, naming) && IpOf(address) == Some(ip) && AddressOf(about) == Some(ip)
    ensures Wired(IndexOf(s))
    ensures ReportsConflict(s, naming, about) <==> Resolved(s, address) && States(About(IndexOf(s), address, ip), about)
  {
    ConflictReportedExactly(s, naming, about);
    ResolvedIndexed(s, address);
    forall r ensures Raises(IndexOf(s), r, about) <==>
                       r in OfKind(IndexOf(s), ResolvesTo) && r.edge.target == address &&
                       States(About(IndexOf(s), address, ip), about)
    {
      RaisesAbout(IndexOf(s), r, about, address, ip);
    }
  }

  // ------------------------------------------------------------ what was recorded

  /** A relationship of this kind leads from the address to `to` and cites `id`. */
  ghost predicate Links(s: Store, kind: RelationKind, address: Entity, id: ObservationId, to: Entity)
  {
    exists l :: l in s.relationships && l.edge == Edge(kind, address, to) && id in l.evidence
  }

  ghost predicate CitedFor(s: Store, kind: RelationKind, address: Entity, id: ObservationId)
  {
    exists to :: Links(s, kind, address, id, to)
  }

  /** The routing prefix that the observation with this identifier reports. */
  function RoutingPrefix(s: Store, id: ObservationId): (r: Option<IpPrefix>)
  {
    match FindObservation(s.observations, id)
    case Some(o) => if o.data.AsnOrigin? then o.data.announced else None
    case None => None
  }

  /** It is a registration whose range excludes the queried address. */
  predicate RangeExcludes(s: Store, id: ObservationId)
  {
    match FindObservation(s.observations, id)
    case Some(o) => o.data.NetworkRegistration? && RangeContainsQueried(o.data) == Some(false)
    case None => false
  }

  lemma ReportsOf(s: Store, id: ObservationId)
    ensures ReportedPrefix(IndexOf(s), id) == RoutingPrefix(s, id) && (RangeMisses(IndexOf(s), id) <==> RangeExcludes(s, id))
  {
    ObservationLookup(s, id);
  }

  lemma LinksFrom(s: Store, kind: RelationKind, address: Entity)
    requires Sound(s) && Wired(IndexOf(s))
    ensures forall l :: l in From(IndexOf(s), kind, address) <==>
                          l in s.relationships && l.edge.kind == kind && l.edge.source == address
  {
    CanonicalList(s);
    SameMembers(IndexOf(s).relationships, s.relationships);
    LookupMembers(IndexOf(s), kind, address);
  }

  lemma LinksAmong(s: Store, links: seq<Relationship>, kind: RelationKind, address: Entity, id: ObservationId, to: Entity)
    requires forall l :: l in links <==> l in s.relationships && l.edge.kind == kind && l.edge.source == address
    ensures Links(s, kind, address, id, to) <==> to in NamedBy(links, id)
  {
    if Links(s, kind, address, id, to) {
      var l :| l in s.relationships && l.edge == Edge(kind, address, to) && id in l.evidence;
      assert l in links;
    }
    if to in NamedBy(links, id) {
      var l :| l in links && id in l.evidence && l.edge.target == to;
      assert l.edge == Edge(kind, address, to);
    }
  }

  lemma LinksIndexed(s: Store, kind: RelationKind, address: Entity, id: ObservationId, to: Entity)
    requires Sound(s)
    ensures Wired(IndexOf(s))
    ensures Links(s, kind, address, id, to) <==> to in NamedBy(From(IndexOf(s), kind, address), id)
  {
    IndexWired(s);
    LinksFrom(s, kind, address);
    LinksAmong(s, From(IndexOf(s), kind, address), kind, address, id, to);
  }

  lemma CitedIndexed(s: Store, kind: RelationKind, address: Entity, id: ObservationId)
    requires Sound(s)
    ensures Wired(IndexOf(s))
    ensures CitedFor(s, kind, address, id) <==> id in CitedBy(From(IndexOf(s), kind, address))
  {
    IndexWired(s);
    var links := From(IndexOf(s), kind, address);
    forall to ensures Links(s, kind, address, id, to) <==> to in NamedBy(links, id) { LinksIndexed(s, kind, address, id, to); }
    if id in CitedBy(links) {
      var l :| l in links && id in l.evidence;
      assert l.edge.target in NamedBy(links, id);
    }
  }

  // -------------------------------------------------------- prefixes and ranges

  lemma InContainment(ix: EvidenceIndex, ip: IpAddr, announced: seq<Relationship>, registered: seq<Relationship>, c: Conflict)
    requires c in Conflicts(ix, ip, announced, registered) && !c.about.OriginsDiffer? && !c.about.NetworksDiffer?
    ensures c in Containment(ix, ip, announced, registered)
  {
    var asns, networks := PerObservation(announced), PerObservation(registered);
    ConflictParts(ix, ip, announced, registered, c);
    if c in Disagreement(asns, OriginsDiffer(ip, asns.Values)) { OwnAbout(asns, OriginsDiffer(ip, asns.Values), c); }
    if c in Disagreement(networks, NetworksDiffer(ip, networks.Values)) { OwnAbout(networks, NetworksDiffer(ip, networks.Values), c); }
  }

  lemma PrefixMissStated(ix: EvidenceIndex, ip: IpAddr, announced: seq<Relationship>, registered: seq<Relationship>, p: IpPrefix)
    ensures States(Conflicts(ix, ip, announced, registered), PrefixMissesAddress(p, ip)) <==>
              !Contains(p, ip) && exists id :: id in CitedBy(announced) && ReportedPrefix(ix, id) == Some(p)
  {
    var ids := Ascending(CitedBy(announced), IdKey);
    if c :| c in Conflicts(ix, ip, announced, registered) && c.about == PrefixMissesAddress(p, ip) {
      InContainment(ix, ip, announced, registered, c);
      ContainmentParts(ix, ip, announced, registered, c);
      PrefixConflictMembers(ix, ip, ids, |ids|);
      var i :| 0 <= i < |ids| && ReportedPrefix(ix, ids[i]) == Some(p) && !Contains(p, ip);
      assert ids[i] in ids;
    }
    if id :| id in CitedBy(announced) && ReportedPrefix(ix, id) == Some(p) && !Contains(p, ip) {
      PrefixMissExactly(ix, ip, announced, registered, p, id);
      assert Conflict(PrefixMissesAddress(p, ip), [id]) in Conflicts(ix, ip, announced, registered);
    }
  }

  lemma RangeMissStated(ix: EvidenceIndex, ip: IpAddr, announced: seq<Relationship>, registered: seq<Relationship>)
    ensures States(Conflicts(ix, ip, announced, registered), RangeMissesAddress(ip)) <==>
              exists id :: id in CitedBy(registered) && RangeMisses(ix, id)
  {
    var ids := Ascending(CitedBy(registered), IdKey);
    if c :| c in Conflicts(ix, ip, announced, registered) && c.about == RangeMissesAddress(ip) {
      InContainment(ix, ip, announced, registered, c);
      ContainmentParts(ix, ip, announced, registered, c);
      RangeConflictMembers(ix, ip, ids, |ids|);
      var i :| 0 <= i < |ids| && RangeMisses(ix, ids[i]);
      assert ids[i] in ids;
    }
    if id :| id in CitedBy(registered) && RangeMisses(ix, id) {
      RangeMissExactly(ix, ip, announced, registered, id);
      assert Conflict(RangeMissesAddress(ip), [id]) in Conflicts(ix, ip, announced, registered);
    }
  }

  /** An observation cited for the routing of the address reports this prefix. */
  ghost predicate Routed(s: Store, address: Entity, p: IpPrefix)
  {
    exists id :: CitedFor(s, AnnouncedBy, address, id) && RoutingPrefix(s, id) == Some(p)
  }

  lemma RoutedIndexed(s: Store, address: Entity, p: IpPrefix)
    requires Sound(s) && Wired(IndexOf(s))
    ensures Routed(s, address, p) <==>
              exists id :: id in CitedBy(From(IndexOf(s), AnnouncedBy, address)) && ReportedPrefix(IndexOf(s), id) == Some(p)
  {
    forall id ensures CitedFor(s, AnnouncedBy, address, id) <==> id in CitedBy(From(IndexOf(s), AnnouncedBy, address))
              ensures ReportedPrefix(IndexOf(s), id) == RoutingPrefix(s, id)
    {
      CitedIndexed(s, AnnouncedBy, address, id);
      ReportsOf(s, id);
    }
  }

  /** The report says that a routing prefix misses the address exactly when a domain
      resolves to the address and an observation cited for its routing reports that
      prefix, which does not contain it. */
  lemma PrefixMissReportedExactly(s: Store, naming: Naming, address: Entity, ip: IpAddr, p: IpPrefix)
    requires Sound(s) && Named(s, naming) && IpOf(address) == Some(ip)
    ensures ReportsConflict(s, naming, PrefixMissesAddress(p, ip)) <==>
              Resolved(s, address) && Routed(s, address, p) && !Contains(p, ip)
  {
    var ix := IndexOf(s);
    ReportedAbout(s, naming, PrefixMissesAddress(p, ip), address, ip);
    PrefixMissStated(ix, ip, From(ix, AnnouncedBy, address), From(ix, RegisteredIn, address), p);
    RoutedIndexed(s, address, p);
  }

  /** It says that the registered range misses the address exactly when a domain
      resolves to the address and a cited registration excludes what was queried. */
  lemma RangeMissReportedExactly(s: Store, naming: Naming, address: Entity, ip: IpAddr)
    requires Sound(s) && Named(s, naming) && IpOf(address) == Some(ip)
    ensures ReportsConflict(s, naming, RangeMissesAddress(ip)) <==>
              Resolved(s, address) && exists id :: CitedFor(s, RegisteredIn, address, id) && RangeExcludes(s, id)
  {
    var ix := IndexOf(s);
    ReportedAbout(s, naming, RangeMissesAddress(ip), address, ip);
    RangeMissStated(ix, ip, From(ix, AnnouncedBy, address), From(ix, RegisteredIn, address));
    forall id ensures CitedFor(s, RegisteredIn, address, id) <==> id in CitedBy(From(ix, RegisteredIn, address))
              ensures RangeMisses(ix, id) <==> RangeExcludes(s, id)
    {
      CitedIndexed(s, RegisteredIn, address, id);
      ReportsOf(s, id);
    }
  }

  // ------------------------------------------------------------ prefixes set apart

  /** What one link adds to the registered networks. */
  function OwnPrefix(l: Relationship): (r: seq<(IpPrefix, ObservationId)>)
  {
    if l.edge.target.Network? && l.evidence != [] then [(l.edge.target.prefix, l.evidence[0])] else []
  }

  lemma OwnMembers(l: Relationship, q: IpPrefix)
    ensures q in Prefixes(OwnPrefix(l)) <==> l.edge.target == Network(q) && l.evidence != []
  {
    if l.edge.target == Network(q) && l.evidence != [] { assert Prefixes(OwnPrefix(l))[0] == q; }
  }

  lemma {:induction false} RegisteredMembers(links: seq<Relationship>, q: IpPrefix)
    ensures q in Prefixes(RegisteredPrefixes(links)) <==>
              exists l :: l in links && l.edge.target == Network(q) && l.evidence != []
  {
    if links != [] {
      RegisteredMembers(links[1..], q);
      assert RegisteredPrefixes(links) == OwnPrefix(links[0]) + RegisteredPrefixes(links[1..]);
      PrefixesConcat(OwnPrefix(links[0]), RegisteredPrefixes(links[1..]), q);
      OwnMembers(links[0], q);
      assert forall l :: l in links <==> l == links[0] || l in links[1..];
    }
  }

  lemma PrefixesConcat(a: seq<(IpPrefix, ObservationId)>, b: seq<(IpPrefix, ObservationId)>, q: IpPrefix)
    ensures q in Prefixes(a + b) <==> q in Prefixes(a) || q in Prefixes(b)
  {
    assert Prefixes(a + b) == Prefixes(a) + Prefixes(b);
  }

  lemma ApartStated(ix: EvidenceIndex, ip: IpAddr, announced: seq<Relationship>, registered: seq<Relationship>, p: IpPrefix)
    ensures (exists networks :: States(Conflicts(ix, ip, announced, registered), PrefixesApart(p, networks, ip))) <==>
              && Contains(p, ip) && Isolated(p, Prefixes(RegisteredPrefixes(registered)))
              && exists id :: id in CitedBy(announced) && ReportedPrefix(ix, id) == Some(p)
  {
    var pairs := RegisteredPrefixes(registered);
    if networks :| States(Conflicts(ix, ip, announced, registered), PrefixesApart(p, networks, ip)) {
      StatedApart(ix, ip, announced, registered, p, networks);
    }
    if id :| Contains(p, ip) && Isolated(p, Prefixes(pairs)) && id in CitedBy(announced) && ReportedPrefix(ix, id) == Some(p) {
      ApartExactly(ix, ip, announced, registered, p, id);
      assert Conflict(PrefixesApart(p, Prefixes(pairs), ip), [id] + Reporters(pairs)) in Conflicts(ix, ip, announced, registered);
      assert States(Conflicts(ix, ip, announced, registered), PrefixesApart(p, Prefixes(pairs), ip));
    }
  }

  lemma StatedApart(ix: EvidenceIndex, ip: IpAddr, announced: seq<Relationship>, registered: seq<Relationship>, p: IpPrefix,
                    networks: seq<IpPrefix>)
    requires States(Conflicts(ix, ip, announced, registered), PrefixesApart(p, networks, ip))
    ensures Contains(p, ip) && Isolated(p, Prefixes(RegisteredPrefixes(registered)))
    ensures exists id :: id in CitedBy(announced) && ReportedPrefix(ix, id) == Some(p)
  {
    var bgp, pairs := Announcing(ix, ip, announced), RegisteredPrefixes(registered);
    var c :| c in Conflicts(ix, ip, announced, registered) && c.about == PrefixesApart(p, networks, ip);
    InContainment(ix, ip, announced, registered, c);
    ContainmentParts(ix, ip, announced, registered, c);
    ApartConflictMembers(bgp, pairs, ip, |bgp|);
    var i :| 0 <= i < |bgp| && Isolated(bgp[i].0, Prefixes(pairs)) && bgp[i].0 == p;
    assert (p, bgp[i].1) in bgp;
    AnnouncingMembers(ix, ip, announced, p, bgp[i].1);
  }

  /** The network is registered for the address. */
  ghost predicate Registered(s: Store, address: Entity, q: IpPrefix)
  {
    exists id :: Links(s, RegisteredIn, address, id, Network(q))
  }

  lemma RegisteredIndexed(s: Store, address: Entity, q: IpPrefix)
    requires Sound(s) && Wired(IndexOf(s))
    ensures Registered(s, address, q) <==> q in Prefixes(RegisteredPrefixes(From(IndexOf(s), RegisteredIn, address)))
  {
    var links := From(IndexOf(s), RegisteredIn, address);
    RegisteredMembers(links, q);
    forall id ensures Links(s, RegisteredIn, address, id, Network(q)) <==> Network(q) in NamedBy(links, id) {
      LinksIndexed(s, RegisteredIn, address, id, Network(q));
    }
    if l :| l in links && l.edge.target == Network(q) && l.evidence != [] {
      assert l.evidence[0] in l.evidence;
      assert Network(q) in NamedBy(links, l.evidence[0]);
    }
  }

  lemma ApartFromRegistered(s: Store, address: Entity, p: IpPrefix)
    requires Sound(s) && Wired(IndexOf(s))
    requires ValidPrefix(p) && forall q :: Registered(s, address, q) ==> ValidPrefix(q)
    ensures Isolated(p, Prefixes(RegisteredPrefixes(From(IndexOf(s), RegisteredIn, address)))) <==>
              && (exists q :: Registered(s, address, q))
              && (forall q :: Registered(s, address, q) ==> !ShareAddress(p, q))
  {
    var networks := Prefixes(RegisteredPrefixes(From(IndexOf(s), RegisteredIn, address)));
    forall q ensures Registered(s, address, q) <==> q in networks { RegisteredIndexed(s, address, q); }
    forall i | 0 <= i < |networks| ensures ValidPrefix(networks[i]) { assert networks[i] in networks; }
    IsolatedExactly(p, networks);
    if networks != [] { assert networks[0] in networks; }
  }

  lemma ApartReported(s: Store, naming: Naming, address: Entity, ip: IpAddr, p: IpPrefix)
    requires Sound(s) && Named(s, naming) && IpOf(address) == Some(ip) && Wired(IndexOf(s))
    ensures (exists networks :: ReportsConflict(s, naming, PrefixesApart(p, networks, ip))) <==>
              Resolved(s, address) && exists networks :: States(About(IndexOf(s), address, ip), PrefixesApart(p, networks, ip))
  {
    forall networks
      ensures ReportsConflict(s, naming, PrefixesApart(p, networks, ip)) <==>
                Resolved(s, address) && States(About(IndexOf(s), address, ip), PrefixesApart(p, networks, ip))
    {
      ReportedAbout(s, naming, PrefixesApart(p, networks, ip), address, ip);
    }
  }

  /** It says that a routing prefix lies apart from the registered networks exactly
      when a domain resolves to the address, an observation cited for its routing
      reports that prefix, which contains it, and no address lies both in the prefix
      and in one of the networks registered for it, of which there are some. */
  lemma ApartReportedExactly(s: Store, naming: Naming, address: Entity, ip: IpAddr, p: IpPrefix)
    requires Sound(s) && Named(s, naming) && IpOf(address) == Some(ip)
    requires ValidPrefix(p) && forall q :: Registered(s, address, q) ==> ValidPrefix(q)
    ensures (exists networks :: ReportsConflict(s, naming, PrefixesApart(p, networks, ip))) <==>
              && Resolved(s, address) && Contains(p, ip) && Routed(s, address, p)
              && (exists q :: Registered(s, address, q))
              && (forall q :: Registered(s, address, q) ==> !ShareAddress(p, q))
  {
    var ix := IndexOf(s);
    IndexWired(s);
    ApartReported(s, naming, address, ip, p);
    ApartStated(ix, ip, From(ix, AnnouncedBy, address), From(ix, RegisteredIn, address), p);
    ApartFromRegistered(s, address, p);
    RoutedIndexed(s, address, p);
  }

  // ------------------------------------------------------------------ disagreement

  /** Two observations cited for the address lead to different sets of targets. */
  ghost predicate Divided(s: Store, kind: RelationKind, address: Entity)
  {
    exists a, b, to :: Links(s, kind, address, a, to) && CitedFor(s, kind, address, b) && !Links(s, kind, address, b, to)
  }

  ghost predicate NamesOther(links: seq<Relationship>, a: ObservationId, b: ObservationId, to: Entity)
  {
    to in NamedBy(links, a) && b in CitedBy(links) && to !in NamedBy(links, b)
  }

  lemma TwoSides(links: seq<Relationship>)
    ensures (exists a, b :: a in CitedBy(links) && b in CitedBy(links) && NamedBy(links, a) != NamedBy(links, b)) <==>
              exists a, b, to :: NamesOther(links, a, b, to)
  {
    if a, b :| a in CitedBy(links) && b in CitedBy(links) && NamedBy(links, a) != NamedBy(links, b) {
      if to :| to in NamedBy(links, a) && to !in NamedBy(links, b) {
        assert NamesOther(links, a, b, to);
      } else {
        var other :| other in NamedBy(links, b) && other !in NamedBy(links, a);
        assert NamesOther(links, b, a, other);
      }
    }
    if a, b, to :| NamesOther(links, a, b, to) {
      assert a in CitedBy(links) && b in CitedBy(links) && NamedBy(links, a) != NamedBy(links, b);
    }
  }

  lemma NamesOtherIndexed(s: Store, kind: RelationKind, address: Entity, a: ObservationId, b: ObservationId, to: Entity)
    requires Sound(s) && Wired(IndexOf(s))
    ensures NamesOther(From(IndexOf(s), kind, address), a, b, to) <==>
              Links(s, kind, address, a, to) && CitedFor(s, kind, address, b) && !Links(s, kind, address, b, to)
  {
    LinksIndexed(s, kind, address, a, to);
    LinksIndexed(s, kind, address, b, to);
    CitedIndexed(s, kind, address, b);
  }

  lemma DividedIndexed(s: Store, kind: RelationKind, address: Entity)
    requires Sound(s) && Wired(IndexOf(s))
    ensures var links := From(IndexOf(s), kind, address);
      Divided(s, kind, address) <==>
        exists a, b :: a in CitedBy(links) && b in CitedBy(links) && NamedBy(links, a) != NamedBy(links, b)
  {
    var links := From(IndexOf(s), kind, address);
    TwoSides(links);
    if a, b, to :| Links(s, kind, address, a, to) && CitedFor(s, kind, address, b) && !Links(s, kind, address, b, to) {
      NamesOtherIndexed(s, kind, address, a, b, to);
    }
    if a, b, to :| NamesOther(links, a, b, to) { NamesOtherIndexed(s, kind, address, a, b, to); }
  }

  lemma OriginsStated(ix: EvidenceIndex, ip: IpAddr, announced: seq<Relationship>, registered: seq<Relationship>)
    ensures (exists sides :: States(Conflicts(ix, ip, announced, registered), OriginsDiffer(ip, sides))) <==>
              exists a, b :: a in CitedBy(announced) && b in CitedBy(announced) && NamedBy(announced, a) != NamedBy(announced, b)
  {
    var m := PerObservation(announced);
    DisagreementAbout(announced, OriginsDiffer(ip, m.Values));
    if sides :| States(Conflicts(ix, ip, announced, registered), OriginsDiffer(ip, sides)) {
      StatedByOne(ix, ip, announced, registered, OriginsDiffer(ip, sides));
    }
    if States(Disagreement(m, OriginsDiffer(ip, m.Values)), OriginsDiffer(ip, m.Values)) {
      assert States(Conflicts(ix, ip, announced, registered), OriginsDiffer(ip, m.Values));
    }
  }

  lemma NetworksStated(ix: EvidenceIndex, ip: IpAddr, announced: seq<Relationship>, registered: seq<Relationship>)
    ensures (exists sides :: States(Conflicts(ix, ip, announced, registered), NetworksDiffer(ip, sides))) <==>
              exists a, b :: a in CitedBy(registered) && b in CitedBy(registered) && NamedBy(registered, a) != NamedBy(registered, b)
  {
    var m := PerObservation(registered);
    DisagreementAbout(registered, NetworksDiffer(ip, m.Values));
    if sides :| States(Conflicts(ix, ip, announced, registered), NetworksDiffer(ip, sides)) {
      StatedByOne(ix, ip, announced, registered, NetworksDiffer(ip, sides));
    }
    if States(Disagreement(m, NetworksDiffer(ip, m.Values)), NetworksDiffer(ip, m.Values)) {
      assert States(Conflicts(ix, ip, announced, registered), NetworksDiffer(ip, m.Values));
    }
  }

  lemma StatedByOne(ix: EvidenceIndex, ip: IpAddr, announced: seq<Relationship>, registered: seq<Relationship>, about: Dispute)
    requires States(Conflicts(ix, ip, announced, registered), about) && (about.OriginsDiffer? || about.NetworksDiffer?)
    ensures var asns, networks := PerObservation(announced), PerObservation(registered);
      if about.OriginsDiffer? then about == OriginsDiffer(ip, asns.Values) && States(Disagreement(asns, about), about)
      else about == NetworksDiffer(ip, networks.Values) && States(Disagreement(networks, about), about)
  {
    var asns, networks := PerObservation(announced), PerObservation(registered);
    var c :| c in Conflicts(ix, ip, announced, registered) && c.about == about;
    ConflictParts(ix, ip, announced, registered, c);
    if c in Containment(ix, ip, announced, registered) { ContainmentAddress(ix, ip, announced, registered, c); }
    if c in Disagreement(asns, OriginsDiffer(ip, asns.Values)) { OwnAbout(asns, OriginsDiffer(ip, asns.Values), c); }
    if c in Disagreement(networks, NetworksDiffer(ip, networks.Values)) { OwnAbout(networks, NetworksDiffer(ip, networks.Values), c); }
  }

  /** It says that the reported origins differ exactly when a domain resolves to the
      address and one observation cited for its routing names a system that another
      does not. */
  lemma OriginsReportedExactly(s: Store, naming: Naming, address: Entity, ip: IpAddr)
    requires Sound(s) && Named(s, naming) && IpOf(address) == Some(ip)
    ensures (exists sides :: ReportsConflict(s, naming, OriginsDiffer(ip, sides))) <==>
              Resolved(s, address) && Divided(s, AnnouncedBy, address)
  {
    var ix := IndexOf(s);
    IndexWired(s);
    forall sides
      ensures ReportsConflict(s, naming, OriginsDiffer(ip, sides)) <==>
                Resolved(s, address) && States(About(ix, address, ip), OriginsDiffer(ip, sides))
    {
      ReportedAbout(s, naming, OriginsDiffer(ip, sides), address, ip);
    }
    OriginsStated(ix, ip, From(ix, AnnouncedBy, address), From(ix, RegisteredIn, address));
    DividedIndexed(s, AnnouncedBy, address);
  }

  /** And in the same way for registered networks. */
  lemma NetworksReportedExactly(s: Store, naming: Naming, address: Entity, ip: IpAddr)
    requires Sound(s) && Named(s, naming) && IpOf(address) == Some(ip)
    ensures (exists sides :: ReportsConflict(s, naming, NetworksDiffer(ip, sides))) <==>
              Resolved(s, address) && Divided(s, RegisteredIn, address)
  {
    var ix := IndexOf(s);
    IndexWired(s);
    forall sides
      ensures ReportsConflict(s, naming, NetworksDiffer(ip, sides)) <==>
                Resolved(s, address) && States(About(ix, address, ip), NetworksDiffer(ip, sides))
    {
      ReportedAbout(s, naming, NetworksDiffer(ip, sides), address, ip);
    }
    NetworksStated(ix, ip, From(ix, AnnouncedBy, address), From(ix, RegisteredIn, address));
    DividedIndexed(s, RegisteredIn, address);
  }
}
