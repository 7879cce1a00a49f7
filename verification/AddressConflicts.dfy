/** The conflicts that the report lists about an address: which there are, what each is
    about, and what it cites, in terms of what was recorded. */
module AddressConflicts {
  import opened Results
  import opened Ordering
  import opened Net
  import opened Model
  import opened Investigation
  import opened Index
  import opened IndexFacts
  import opened Drafts
  import opened Infrastructure
  import opened Correlate
  import opened ReportFacts
  import opened DraftFacts
  import opened ConflictFacts

  // ---------------------------------------------------------- what a conflict says

  /** The targets that one observation names for the address. */
  ghost function TargetsNamed(s: Store, kind: RelationKind, address: Entity, id: ObservationId): (r: set<Entity>)
  {
    set l | l in s.relationships && l.edge.kind == kind && l.edge.source == address && id in l.evidence :: l.edge.target
  }

  /** The sides are what the cited observations name, each of them. */
  ghost predicate SidesTold(s: Store, kind: RelationKind, address: Entity, sides: set<set<Entity>>)
  {
    forall side :: side in sides <==> exists id :: CitedFor(s, kind, address, id) && side == TargetsNamed(s, kind, address, id)
  }

  ghost predicate AllCited(s: Store, kind: RelationKind, address: Entity, ids: seq<ObservationId>)
  {
    forall id :: id in ids <==> CitedFor(s, kind, address, id)
  }

  ghost predicate Only(ids: seq<ObservationId>, id: ObservationId)
  {
    forall x :: x in ids <==> x == id
  }

  /** The observation reports a routing prefix that does not contain the address. */
  ghost predicate Misses(s: Store, address: Entity, ip: IpAddr, id: ObservationId, p: IpPrefix)
  {
    CitedFor(s, AnnouncedBy, address, id) && RoutingPrefix(s, id) == Some(p) && !Contains(p, ip)
  }

  ghost predicate Excludes(s: Store, address: Entity, id: ObservationId)
  {
    CitedFor(s, RegisteredIn, address, id) && RangeExcludes(s, id)
  }

  /** The observation reports a prefix that contains the address and overlaps none of
      the networks registered for it, of which there are some. */
  ghost predicate Apart(s: Store, address: Entity, ip: IpAddr, id: ObservationId, p: IpPrefix)
  {
    && CitedFor(s, AnnouncedBy, address, id) && RoutingPrefix(s, id) == Some(p) && Contains(p, ip)
    && (exists q :: Registered(s, address, q)) && (forall q :: Registered(s, address, q) ==> !Overlaps(p, q))
  }

  /** Cited are the observation and, for every network, one that names it, and no
      others. */
  ghost predicate ReportersTold(s: Store, address: Entity, id: ObservationId, networks: seq<IpPrefix>, ids: seq<ObservationId>)
  {
    && (forall q :: q in networks <==> Registered(s, address, q)) && id in ids
    && (forall q :: q in networks ==> exists y :: y in ids && Links(s, RegisteredIn, address, y, Network(q)))
    && (forall y :: y in ids ==> y == id || exists q :: Links(s, RegisteredIn, address, y, Network(q)))
  }

  ghost predicate ConflictTold(s: Store, address: Entity, ip: IpAddr, x: Conflict)
  {
    match x.about
    case OriginsDiffer(i, sides) =>
      i == ip && Divided(s, AnnouncedBy, address) && SidesTold(s, AnnouncedBy, address, sides) && AllCited(s, AnnouncedBy, address, x.evidence)
    case NetworksDiffer(i, sides) =>
      i == ip && Divided(s, RegisteredIn, address) && SidesTold(s, RegisteredIn, address, sides) && AllCited(s, RegisteredIn, address, x.evidence)
    case PrefixMissesAddress(p, i) => i == ip && exists id :: Misses(s, address, ip, id, p) && Only(x.evidence, id)
    case RangeMissesAddress(i) => i == ip && exists id :: Excludes(s, address, id) && Only(x.evidence, id)
    case PrefixesApart(p, networks, i) =>
      i == ip && exists id :: Apart(s, address, ip, id, p) && ReportersTold(s, address, id, networks, x.evidence)
    case _ => false
  }

  ghost predicate OriginsHeard(s: Store, address: Entity, xs: seq<Conflict>)
  {
    Divided(s, AnnouncedBy, address) ==> exists x :: x in xs && x.about.OriginsDiffer?
  }

  ghost predicate NetworksHeard(s: Store, address: Entity, xs: seq<Conflict>)
  {
    Divided(s, RegisteredIn, address) ==> exists x :: x in xs && x.about.NetworksDiffer?
  }

  ghost predicate MissHeard(xs: seq<Conflict>, ip: IpAddr, id: ObservationId, p: IpPrefix)
  {
    exists x :: x in xs && x.about == PrefixMissesAddress(p, ip) && Only(x.evidence, id)
  }

  ghost predicate ExclusionHeard(xs: seq<Conflict>, ip: IpAddr, id: ObservationId)
  {
    exists x :: x in xs && x.about == RangeMissesAddress(ip) && Only(x.evidence, id)
  }

  ghost predicate ApartHeard(xs: seq<Conflict>, id: ObservationId, p: IpPrefix)
  {
    exists x :: x in xs && x.about.PrefixesApart? && x.about.prefix == p && id in x.evidence
  }

  ghost predicate AllHeard(s: Store, address: Entity, ip: IpAddr, xs: seq<Conflict>)
  {
    && OriginsHeard(s, address, xs) && NetworksHeard(s, address, xs)
    && (forall id, p :: Misses(s, address, ip, id, p) ==> MissHeard(xs, ip, id, p))
    && (forall id :: Excludes(s, address, id) ==> ExclusionHeard(xs, ip, id))
    && (forall id, p :: Apart(s, address, ip, id, p) ==> ApartHeard(xs, id, p))
  }

  /** These are the conflicts about the address: each says what was recorded, and none
      is missing. */
  ghost predicate ConflictsTold(s: Store, address: Entity, ip: IpAddr, xs: seq<Conflict>)
  {
    (forall x :: x in xs ==> ConflictTold(s, address, ip, x)) && AllHeard(s, address, ip, xs)
  }

  // ------------------------------------------------------- the links of an address

  /** These are the links of the kind that start at the address. */
  ghost predicate AreLinks(s: Store, kind: RelationKind, address: Entity, links: seq<Relationship>)
  {
    && (forall id :: id in CitedBy(links) <==> CitedFor(s, kind, address, id))
    && (forall id, to :: to in NamedBy(links, id) <==> Links(s, kind, address, id, to))
  }

  lemma LinksAre(s: Store, kind: RelationKind, address: Entity)
    requires Sound(s) && Wired(IndexOf(s))
    ensures AreLinks(s, kind, address, From(IndexOf(s), kind, address))
  {
    forall id ensures id in CitedBy(From(IndexOf(s), kind, address)) <==> CitedFor(s, kind, address, id) { CitedIndexed(s, kind, address, id); }
    forall id, to ensures to in NamedBy(From(IndexOf(s), kind, address), id) <==> Links(s, kind, address, id, to) {
      LinksIndexed(s, kind, address, id, to);
    }
  }

  // ------------------------------------------------------------------ disagreements

  lemma NamedAre(s: Store, kind: RelationKind, address: Entity, links: seq<Relationship>, id: ObservationId)
    requires AreLinks(s, kind, address, links)
    ensures NamedBy(links, id) == TargetsNamed(s, kind, address, id)
  {
    forall to ensures to in TargetsNamed(s, kind, address, id) <==> Links(s, kind, address, id, to) {
      if to in TargetsNamed(s, kind, address, id) {
        var l :| l in s.relationships && l.edge.kind == kind && l.edge.source == address && id in l.evidence && l.edge.target == to;
        assert l.edge == Edge(kind, address, to);
      }
    }
  }

  lemma SidesAre(s: Store, kind: RelationKind, address: Entity, links: seq<Relationship>)
    requires AreLinks(s, kind, address, links)
    ensures SidesTold(s, kind, address, PerObservation(links).Values)
  {
    var m := PerObservation(links);
    forall id ensures NamedBy(links, id) == TargetsNamed(s, kind, address, id) { NamedAre(s, kind, address, links, id); }
    forall side ensures side in m.Values <==> exists id :: CitedFor(s, kind, address, id) && side == TargetsNamed(s, kind, address, id) {
      SideAre(s, kind, address, m, side);
    }
  }

  lemma SideAre(s: Store, kind: RelationKind, address: Entity, m: map<ObservationId, set<Entity>>, side: set<Entity>)
    requires forall id :: id in m <==> CitedFor(s, kind, address, id)
    requires forall id :: id in m ==> m[id] == TargetsNamed(s, kind, address, id)
    ensures side in m.Values <==> exists id :: CitedFor(s, kind, address, id) && side == TargetsNamed(s, kind, address, id)
  {
    if side in m.Values {
      var id :| id in m && m[id] == side;
    }
    if id :| CitedFor(s, kind, address, id) && side == TargetsNamed(s, kind, address, id) {
      assert id in m && m[id] == side;
    }
  }

  lemma DividedLinks(s: Store, kind: RelationKind, address: Entity, links: seq<Relationship>)
    requires AreLinks(s, kind, address, links)
    ensures Divided(s, kind, address) <==>
              exists a, b :: a in CitedBy(links) && b in CitedBy(links) && NamedBy(links, a) != NamedBy(links, b)
  {
    TwoSides(links);
    forall a, b, to ensures NamesOther(links, a, b, to) <==>
                              Links(s, kind, address, a, to) && CitedFor(s, kind, address, b) && !Links(s, kind, address, b, to) { }
    if a, b, to :| NamesOther(links, a, b, to) { assert Divided(s, kind, address); }
  }

  lemma SidesApart(links: seq<Relationship>, about: Dispute, x: Conflict)
    requires x in Disagreement(PerObservation(links), about)
    ensures x.about == about && forall id :: id in x.evidence <==> id in CitedBy(links)
    ensures exists a, b :: a in CitedBy(links) && b in CitedBy(links) && NamedBy(links, a) != NamedBy(links, b)
  {
    DisagreementExactly(links, about);
    OwnAbout(PerObservation(links), about, x);
  }

  lemma DisagreementSays(s: Store, kind: RelationKind, address: Entity, links: seq<Relationship>, about: Dispute, x: Conflict)
    requires AreLinks(s, kind, address, links) && x in Disagreement(PerObservation(links), about)
    ensures x.about == about && Divided(s, kind, address) && AllCited(s, kind, address, x.evidence)
  {
    SidesApart(links, about, x);
    DividedLinks(s, kind, address, links);
  }

  lemma SomeSides(links: seq<Relationship>, about: Dispute) returns (x: Conflict)
    requires exists a, b :: a in CitedBy(links) && b in CitedBy(links) && NamedBy(links, a) != NamedBy(links, b)
    ensures x in Disagreement(PerObservation(links), about) && x.about == about
  {
    DisagreementExactly(links, about);
    x := Disagreement(PerObservation(links), about)[0];
    OwnAbout(PerObservation(links), about, x);
  }

  lemma DisagreementHeard(s: Store, kind: RelationKind, address: Entity, links: seq<Relationship>, about: Dispute) returns (x: Conflict)
    requires AreLinks(s, kind, address, links) && Divided(s, kind, address)
    ensures x in Disagreement(PerObservation(links), about) && x.about == about
  {
    DividedLinks(s, kind, address, links);
    x := SomeSides(links, about);
  }

  // --------------------------------------------------------------------- containment

  lemma MissFrom(ix: EvidenceIndex, ip: IpAddr, ids: seq<ObservationId>, x: Conflict) returns (id: ObservationId, p: IpPrefix)
    requires x in PrefixConflicts(ix, ip, ids, |ids|)
    ensures id in ids && ReportedPrefix(ix, id) == Some(p) && !Contains(p, ip) && x == Conflict(PrefixMissesAddress(p, ip), [id])
  {
    PrefixConflictMembers(ix, ip, ids, |ids|);
    var i :| 0 <= i < |ids| && ReportedPrefix(ix, ids[i]).Some? && !Contains(ReportedPrefix(ix, ids[i]).value, ip) &&
             x == Conflict(PrefixMissesAddress(ReportedPrefix(ix, ids[i]).value, ip), [ids[i]]);
    id, p := ids[i], ReportedPrefix(ix, ids[i]).value;
  }

  lemma MissSays(s: Store, address: Entity, ip: IpAddr, announced: seq<Relationship>, x: Conflict)
    requires AreLinks(s, AnnouncedBy, address, announced)
    requires var ids := Ascending(CitedBy(announced), IdKey); x in PrefixConflicts(IndexOf(s), ip, ids, |ids|)
    ensures ConflictTold(s, address, ip, x)
  {
    var id, p := MissFrom(IndexOf(s), ip, Ascending(CitedBy(announced), IdKey), x);
    ReportsOf(s, id);
    OneMiss(s, address, ip, id, p);
  }

  lemma OneMiss(s: Store, address: Entity, ip: IpAddr, id: ObservationId, p: IpPrefix)
    requires Misses(s, address, ip, id, p)
    ensures ConflictTold(s, address, ip, Conflict(PrefixMissesAddress(p, ip), [id]))
  {
    assert Only([id], id);
  }

  lemma ExclusionFrom(ix: EvidenceIndex, ip: IpAddr, ids: seq<ObservationId>, x: Conflict) returns (id: ObservationId)
    requires x in RangeConflicts(ix, ip, ids, |ids|)
    ensures id in ids && RangeMisses(ix, id) && x == Conflict(RangeMissesAddress(ip), [id])
  {
    RangeConflictMembers(ix, ip, ids, |ids|);
    var i :| 0 <= i < |ids| && RangeMisses(ix, ids[i]) && x == Conflict(RangeMissesAddress(ip), [ids[i]]);
    id := ids[i];
  }

  lemma ExclusionSays(s: Store, address: Entity, ip: IpAddr, registered: seq<Relationship>, x: Conflict)
    requires AreLinks(s, RegisteredIn, address, registered)
    requires var ids := Ascending(CitedBy(registered), IdKey); x in RangeConflicts(IndexOf(s), ip, ids, |ids|)
    ensures ConflictTold(s, address, ip, x)
  {
    var id := ExclusionFrom(IndexOf(s), ip, Ascending(CitedBy(registered), IdKey), x);
    ReportsOf(s, id);
    OneExclusion(s, address, ip, id);
  }

  lemma OneExclusion(s: Store, address: Entity, ip: IpAddr, id: ObservationId)
    requires Excludes(s, address, id)
    ensures ConflictTold(s, address, ip, Conflict(RangeMissesAddress(ip), [id]))
  {
    assert Only([id], id);
  }

  lemma {:induction false} PairsFrom(links: seq<Relationship>, q: IpPrefix, y: ObservationId)
    requires (q, y) in RegisteredPrefixes(links)
    ensures exists l :: l in links && l.edge.target == Network(q) && y in l.evidence
  {
    if (q, y) in OwnPrefix(links[0]) {
      assert links[0] in links && links[0].evidence[0] in links[0].evidence;
    } else {
      assert RegisteredPrefixes(links) == OwnPrefix(links[0]) + RegisteredPrefixes(links[1..]);
      PairsFrom(links[1..], q, y);
    }
  }

  lemma PairLinked(s: Store, address: Entity, registered: seq<Relationship>, q: IpPrefix, y: ObservationId)
    requires AreLinks(s, RegisteredIn, address, registered) && (q, y) in RegisteredPrefixes(registered)
    ensures Links(s, RegisteredIn, address, y, Network(q))
  {
    PairsFrom(registered, q, y);
    var l :| l in registered && l.edge.target == Network(q) && y in l.evidence;
    assert Network(q) in NamedBy(registered, y);
  }

  lemma RegisteredAre(s: Store, address: Entity, registered: seq<Relationship>, q: IpPrefix)
    requires AreLinks(s, RegisteredIn, address, registered) && WithEvidence(registered)
    ensures q in Prefixes(RegisteredPrefixes(registered)) <==> Registered(s, address, q)
  {
    RegisteredMembers(registered, q);
    if l :| l in registered && l.edge.target == Network(q) && l.evidence != [] {
      assert l.evidence[0] in l.evidence && Network(q) in NamedBy(registered, l.evidence[0]);
    }
    if id :| Links(s, RegisteredIn, address, id, Network(q)) {
      assert Network(q) in NamedBy(registered, id);
      var l :| l in registered && id in l.evidence && l.edge.target == Network(q);
    }
  }

  ghost predicate WithEvidence(links: seq<Relationship>)
  {
    forall l :: l in links ==> l.evidence != []
  }

  lemma PairOf(pairs: seq<(IpPrefix, ObservationId)>, q: IpPrefix) returns (y: ObservationId)
    requires q in Prefixes(pairs)
    ensures (q, y) in pairs && y in Reporters(pairs)
  {
    var i :| 0 <= i < |pairs| && Prefixes(pairs)[i] == q;
    y := pairs[i].1;
    assert pairs[i] == (q, y) && Reporters(pairs)[i] == y;
  }

  lemma ReporterOf(pairs: seq<(IpPrefix, ObservationId)>, y: ObservationId) returns (q: IpPrefix)
    requires y in Reporters(pairs)
    ensures (q, y) in pairs
  {
    var i :| 0 <= i < |pairs| && Reporters(pairs)[i] == y;
    q := pairs[i].0;
    assert pairs[i] == (q, y);
  }

  lemma ReportersAre(s: Store, address: Entity, registered: seq<Relationship>, id: ObservationId)
    requires AreLinks(s, RegisteredIn, address, registered) && WithEvidence(registered)
    ensures var pairs := RegisteredPrefixes(registered);
            ReportersTold(s, address, id, Prefixes(pairs), [id] + Reporters(pairs))
  {
    var pairs := RegisteredPrefixes(registered);
    forall q ensures q in Prefixes(pairs) <==> Registered(s, address, q) { RegisteredAre(s, address, registered, q); }
    forall q | q in Prefixes(pairs) ensures exists y :: y in [id] + Reporters(pairs) && Links(s, RegisteredIn, address, y, Network(q)) {
      var y := PairOf(pairs, q);
      PairLinked(s, address, registered, q, y);
    }
    forall y | y in Reporters(pairs) ensures exists q :: Links(s, RegisteredIn, address, y, Network(q)) {
      var q := ReporterOf(pairs, y);
      PairLinked(s, address, registered, q, y);
    }
  }

  lemma IsolatedAre(s: Store, address: Entity, registered: seq<Relationship>, p: IpPrefix)
    requires AreLinks(s, RegisteredIn, address, registered) && WithEvidence(registered)
    ensures Isolated(p, Prefixes(RegisteredPrefixes(registered))) <==>
              (exists q :: Registered(s, address, q)) && (forall q :: Registered(s, address, q) ==> !Overlaps(p, q))
  {
    var networks := Prefixes(RegisteredPrefixes(registered));
    forall q ensures q in networks <==> Registered(s, address, q) { RegisteredAre(s, address, registered, q); }
    if networks != [] { assert networks[0] in networks; }
    forall i | 0 <= i < |networks| ensures Registered(s, address, networks[i]) { assert networks[i] in networks; }
  }

  lemma ApartBy(s: Store, address: Entity, ip: IpAddr, announced: seq<Relationship>, registered: seq<Relationship>, p: IpPrefix, id: ObservationId)
    requires AreLinks(s, AnnouncedBy, address, announced) && AreLinks(s, RegisteredIn, address, registered) && WithEvidence(registered)
    ensures Apart(s, address, ip, id, p) <==>
              (p, id) in Announcing(IndexOf(s), ip, announced) && Isolated(p, Prefixes(RegisteredPrefixes(registered)))
  {
    AnnouncingMembers(IndexOf(s), ip, announced, p, id);
    ReportsOf(s, id);
    IsolatedAre(s, address, registered, p);
  }

  lemma ApartSays(s: Store, address: Entity, ip: IpAddr, announced: seq<Relationship>, registered: seq<Relationship>, x: Conflict)
    requires AreLinks(s, AnnouncedBy, address, announced) && AreLinks(s, RegisteredIn, address, registered) && WithEvidence(registered)
    requires var bgp := Announcing(IndexOf(s), ip, announced); x in ApartConflicts(bgp, RegisteredPrefixes(registered), ip, |bgp|)
    ensures ConflictTold(s, address, ip, x)
  {
    var bgp, pairs := Announcing(IndexOf(s), ip, announced), RegisteredPrefixes(registered);
    ApartConflictMembers(bgp, pairs, ip, |bgp|);
    var i :| 0 <= i < |bgp| && Isolated(bgp[i].0, Prefixes(pairs)) &&
             x == Conflict(PrefixesApart(bgp[i].0, Prefixes(pairs), ip), [bgp[i].1] + Reporters(pairs));
    var (p, id) := bgp[i];
    assert (p, id) in bgp;
    ApartBy(s, address, ip, announced, registered, p, id);
    ReportersAre(s, address, registered, id);
  }

  // ---------------------------------------------------------------- all conflicts

  lemma InConflicts(ix: EvidenceIndex, ip: IpAddr, announced: seq<Relationship>, registered: seq<Relationship>, x: Conflict)
    requires x in Containment(ix, ip, announced, registered)
    ensures x in Conflicts(ix, ip, announced, registered)
  {
  }

  lemma OriginsSay(s: Store, address: Entity, ip: IpAddr, announced: seq<Relationship>, x: Conflict)
    requires AreLinks(s, AnnouncedBy, address, announced)
    requires var m := PerObservation(announced); x in Disagreement(m, OriginsDiffer(ip, m.Values))
    ensures ConflictTold(s, address, ip, x)
  {
    DisagreementSays(s, AnnouncedBy, address, announced, OriginsDiffer(ip, PerObservation(announced).Values), x);
    SidesAre(s, AnnouncedBy, address, announced);
  }

  lemma NetworksSay(s: Store, address: Entity, ip: IpAddr, registered: seq<Relationship>, x: Conflict)
    requires AreLinks(s, RegisteredIn, address, registered)
    requires var m := PerObservation(registered); x in Disagreement(m, NetworksDiffer(ip, m.Values))
    ensures ConflictTold(s, address, ip, x)
  {
    DisagreementSays(s, RegisteredIn, address, registered, NetworksDiffer(ip, PerObservation(registered).Values), x);
    SidesAre(s, RegisteredIn, address, registered);
  }

  lemma EachTold(s: Store, address: Entity, ip: IpAddr, announced: seq<Relationship>, registered: seq<Relationship>, x: Conflict)
    requires AreLinks(s, AnnouncedBy, address, announced) && AreLinks(s, RegisteredIn, address, registered) && WithEvidence(registered)
    requires x in Conflicts(IndexOf(s), ip, announced, registered)
    ensures ConflictTold(s, address, ip, x)
  {
    var asns, networks := PerObservation(announced), PerObservation(registered);
    ConflictParts(IndexOf(s), ip, announced, registered, x);
    if x in Disagreement(asns, OriginsDiffer(ip, asns.Values)) {
      OriginsSay(s, address, ip, announced, x);
    } else if x in Disagreement(networks, NetworksDiffer(ip, networks.Values)) {
      NetworksSay(s, address, ip, registered, x);
    } else {
      ContainedTold(s, address, ip, announced, registered, x);
    }
  }

  lemma ContainedTold(s: Store, address: Entity, ip: IpAddr, announced: seq<Relationship>, registered: seq<Relationship>, x: Conflict)
    requires AreLinks(s, AnnouncedBy, address, announced) && AreLinks(s, RegisteredIn, address, registered) && WithEvidence(registered)
    requires x in Containment(IndexOf(s), ip, announced, registered)
    ensures ConflictTold(s, address, ip, x)
  {
    ContainmentParts(IndexOf(s), ip, announced, registered, x);
    match x.about
    case PrefixMissesAddress(_, _) => MissSays(s, address, ip, announced, x);
    case RangeMissesAddress(_) => ExclusionSays(s, address, ip, registered, x);
    case PrefixesApart(_, _, _) => ApartSays(s, address, ip, announced, registered, x);
    case _ =>
  }

  lemma SidesHeard(s: Store, address: Entity, ip: IpAddr, announced: seq<Relationship>, registered: seq<Relationship>)
    requires AreLinks(s, AnnouncedBy, address, announced) && AreLinks(s, RegisteredIn, address, registered)
    ensures OriginsHeard(s, address, Conflicts(IndexOf(s), ip, announced, registered))
    ensures NetworksHeard(s, address, Conflicts(IndexOf(s), ip, announced, registered))
  {
    if Divided(s, AnnouncedBy, address) {
      var x := DisagreementHeard(s, AnnouncedBy, address, announced, OriginsDiffer(ip, PerObservation(announced).Values));
      ConflictParts(IndexOf(s), ip, announced, registered, x);
    }
    if Divided(s, RegisteredIn, address) {
      var x := DisagreementHeard(s, RegisteredIn, address, registered, NetworksDiffer(ip, PerObservation(registered).Values));
      ConflictParts(IndexOf(s), ip, announced, registered, x);
    }
  }

  lemma MissListed(ix: EvidenceIndex, ip: IpAddr, announced: seq<Relationship>, registered: seq<Relationship>, id: ObservationId, p: IpPrefix)
    requires id in CitedBy(announced) && ReportedPrefix(ix, id) == Some(p) && !Contains(p, ip)
    ensures MissHeard(Conflicts(ix, ip, announced, registered), ip, id, p)
  {
    PrefixMissExactly(ix, ip, announced, registered, p, id);
    InConflicts(ix, ip, announced, registered, Conflict(PrefixMissesAddress(p, ip), [id]));
    MissAmong(Conflicts(ix, ip, announced, registered), ip, id, p);
  }

  lemma MissAmong(xs: seq<Conflict>, ip: IpAddr, id: ObservationId, p: IpPrefix)
    requires Conflict(PrefixMissesAddress(p, ip), [id]) in xs
    ensures MissHeard(xs, ip, id, p)
  {
    assert Only(Conflict(PrefixMissesAddress(p, ip), [id]).evidence, id);
  }

  lemma MissIsHeard(s: Store, address: Entity, ip: IpAddr, announced: seq<Relationship>, registered: seq<Relationship>, id: ObservationId, p: IpPrefix)
    requires AreLinks(s, AnnouncedBy, address, announced) && Misses(s, address, ip, id, p)
    ensures MissHeard(Conflicts(IndexOf(s), ip, announced, registered), ip, id, p)
  {
    ReportsOf(s, id);
    MissListed(IndexOf(s), ip, announced, registered, id, p);
  }

  lemma ExclusionListed(ix: EvidenceIndex, ip: IpAddr, announced: seq<Relationship>, registered: seq<Relationship>, id: ObservationId)
    requires id in CitedBy(registered) && RangeMisses(ix, id)
    ensures ExclusionHeard(Conflicts(ix, ip, announced, registered), ip, id)
  {
    RangeMissExactly(ix, ip, announced, registered, id);
    InConflicts(ix, ip, announced, registered, Conflict(RangeMissesAddress(ip), [id]));
    ExclusionAmong(Conflicts(ix, ip, announced, registered), ip, id);
  }

  lemma ExclusionAmong(xs: seq<Conflict>, ip: IpAddr, id: ObservationId)
    requires Conflict(RangeMissesAddress(ip), [id]) in xs
    ensures ExclusionHeard(xs, ip, id)
  {
    assert Only(Conflict(RangeMissesAddress(ip), [id]).evidence, id);
  }

  lemma ExclusionIsHeard(s: Store, address: Entity, ip: IpAddr, announced: seq<Relationship>, registered: seq<Relationship>, id: ObservationId)
    requires AreLinks(s, RegisteredIn, address, registered) && Excludes(s, address, id)
    ensures ExclusionHeard(Conflicts(IndexOf(s), ip, announced, registered), ip, id)
  {
    ReportsOf(s, id);
    ExclusionListed(IndexOf(s), ip, announced, registered, id);
  }

  lemma ApartListed(ix: EvidenceIndex, ip: IpAddr, announced: seq<Relationship>, registered: seq<Relationship>, id: ObservationId, p: IpPrefix)
    requires id in CitedBy(announced) && ReportedPrefix(ix, id) == Some(p) && Contains(p, ip)
    requires Isolated(p, Prefixes(RegisteredPrefixes(registered)))
    ensures ApartHeard(Conflicts(ix, ip, announced, registered), id, p)
  {
    var pairs := RegisteredPrefixes(registered);
    ApartExactly(ix, ip, announced, registered, p, id);
    InConflicts(ix, ip, announced, registered, Conflict(PrefixesApart(p, Prefixes(pairs), ip), [id] + Reporters(pairs)));
    ApartAmong(Conflicts(ix, ip, announced, registered), ip, id, p, Prefixes(pairs), Reporters(pairs));
  }

  lemma ApartAmong(xs: seq<Conflict>, ip: IpAddr, id: ObservationId, p: IpPrefix, networks: seq<IpPrefix>, others: seq<ObservationId>)
    requires Conflict(PrefixesApart(p, networks, ip), [id] + others) in xs
    ensures ApartHeard(xs, id, p)
  {
    assert ([id] + others)[0] == id;
  }

  lemma ApartIsHeard(s: Store, address: Entity, ip: IpAddr, announced: seq<Relationship>, registered: seq<Relationship>, id: ObservationId, p: IpPrefix)
    requires AreLinks(s, AnnouncedBy, address, announced) && AreLinks(s, RegisteredIn, address, registered) && WithEvidence(registered)
    requires Apart(s, address, ip, id, p)
    ensures ApartHeard(Conflicts(IndexOf(s), ip, announced, registered), id, p)
  {
    ReportsOf(s, id);
    IsolatedAre(s, address, registered, p);
    ApartListed(IndexOf(s), ip, announced, registered, id, p);
  }

  lemma ConflictsAre(s: Store, address: Entity, ip: IpAddr, announced: seq<Relationship>, registered: seq<Relationship>)
    requires AreLinks(s, AnnouncedBy, address, announced) && AreLinks(s, RegisteredIn, address, registered) && WithEvidence(registered)
    ensures ConflictsTold(s, address, ip, Conflicts(IndexOf(s), ip, announced, registered))
  {
    var xs := Conflicts(IndexOf(s), ip, announced, registered);
    forall x | x in xs ensures ConflictTold(s, address, ip, x) { EachTold(s, address, ip, announced, registered, x); }
    SidesHeard(s, address, ip, announced, registered);
    forall id, p | Misses(s, address, ip, id, p) ensures MissHeard(xs, ip, id, p) {
      MissIsHeard(s, address, ip, announced, registered, id, p);
    }
    forall id | Excludes(s, address, id) ensures ExclusionHeard(xs, ip, id) { ExclusionIsHeard(s, address, ip, announced, registered, id); }
    forall id, p | Apart(s, address, ip, id, p) ensures ApartHeard(xs, id, p) {
      ApartIsHeard(s, address, ip, announced, registered, id, p);
    }
  }

  // ---------------------------------------------------------------------- order

  function PartRank(about: Dispute): (r: nat)
  {
    match about
    case OriginsDiffer(_, _) => 0
    case NetworksDiffer(_, _) => 1
    case PrefixMissesAddress(_, _) => 2
    case RangeMissesAddress(_) => 3
    case _ => 4
  }

  /** One conflict stands before another: by what it is about, then by the observation
      that it cites first. */
  predicate Before(x: Conflict, y: Conflict)
  {
    || PartRank(x.about) < PartRank(y.about)
    || (PartRank(x.about) == PartRank(y.about) && x.evidence != [] && y.evidence != [] && x.evidence[0] < y.evidence[0])
  }

  ghost predicate InTurn(xs: seq<Conflict>)
  {
    forall i, j :: 0 <= i < j < |xs| ==> Before(xs[i], xs[j])
  }

  /** All of one part, each citing one of these observations first. */
  ghost predicate PartOf(xs: seq<Conflict>, rank: nat, ids: seq<ObservationId>)
  {
    forall x :: x in xs ==> PartRank(x.about) == rank && x.evidence != [] && x.evidence[0] in ids
  }

  ghost predicate IdsAscend(ids: seq<ObservationId>)
  {
    forall i, j :: 0 <= i < j < |ids| ==> ids[i] < ids[j]
  }

  lemma CitedAscend(links: seq<Relationship>)
    ensures IdsAscend(Ascending(CitedBy(links), IdKey))
  {
    var ids := Ascending(CitedBy(links), IdKey);
    AscendingApart(CitedBy(links), IdKey);
    forall i, j | 0 <= i < j < |ids| ensures ids[i] < ids[j] {
      assert KeyLe(IdKey(ids[i]), IdKey(ids[j]));
      assert [ids[i]][0] == ids[i] && [ids[j]][0] == ids[j];
    }
  }

  lemma OneMore(xs: seq<Conflict>, rank: nat, ids: seq<ObservationId>, id: ObservationId, more: seq<Conflict>)
    requires InTurn(xs) && PartOf(xs, rank, ids) && IdsAscend(ids + [id])
    requires |more| <= 1 && PartOf(more, rank, [id])
    ensures InTurn(xs + more) && PartOf(xs + more, rank, ids + [id])
  {
    var all := xs + more;
    forall x | x in ids ensures x < id {
      var k :| 0 <= k < |ids| && ids[k] == x;
      assert (ids + [id])[k] == x && (ids + [id])[|ids|] == id;
    }
    forall i, j | 0 <= i < j < |all| ensures Before(all[i], all[j]) {
      assert xs[i] in xs;
      if j == |xs| { assert more[0] in more; }
    }
  }

  lemma {:induction false} MissesInTurn(ix: EvidenceIndex, ip: IpAddr, ids: seq<ObservationId>, n: nat)
    requires n <= |ids| && IdsAscend(ids)
    ensures InTurn(PrefixConflicts(ix, ip, ids, n)) && PartOf(PrefixConflicts(ix, ip, ids, n), 2, ids[..n])
  {
    if n > 0 {
      MissesInTurn(ix, ip, ids, n - 1);
      var before := PrefixConflicts(ix, ip, ids, n - 1);
      var more := PrefixConflicts(ix, ip, ids, n)[|before|..];
      assert ids[..n] == ids[..n - 1] + [ids[n - 1]] && PrefixConflicts(ix, ip, ids, n) == before + more;
      OneMore(before, 2, ids[..n - 1], ids[n - 1], more);
    }
  }

  lemma {:induction false} ExclusionsInTurn(ix: EvidenceIndex, ip: IpAddr, ids: seq<ObservationId>, n: nat)
    requires n <= |ids| && IdsAscend(ids)
    ensures InTurn(RangeConflicts(ix, ip, ids, n)) && PartOf(RangeConflicts(ix, ip, ids, n), 3, ids[..n])
  {
    if n > 0 {
      ExclusionsInTurn(ix, ip, ids, n - 1);
      var before := RangeConflicts(ix, ip, ids, n - 1);
      var more := RangeConflicts(ix, ip, ids, n)[|before|..];
      assert ids[..n] == ids[..n - 1] + [ids[n - 1]] && RangeConflicts(ix, ip, ids, n) == before + more;
      OneMore(before, 3, ids[..n - 1], ids[n - 1], more);
    }
  }

  lemma {:induction false} ContainingAscend(ix: EvidenceIndex, ip: IpAddr, ids: seq<ObservationId>, n: nat)
    requires n <= |ids| && IdsAscend(ids)
    ensures IdsAscend(Reporters(Containing(ix, ip, ids, n)))
    ensures forall id :: id in Reporters(Containing(ix, ip, ids, n)) ==> id in ids[..n]
  {
    if n > 0 {
      ContainingAscend(ix, ip, ids, n - 1);
      var before, all := Containing(ix, ip, ids, n - 1), Containing(ix, ip, ids, n);
      forall id | id in Reporters(before) ensures id < ids[n - 1] && id in ids[..n] {
        var k :| 0 <= k < n - 1 && ids[..n - 1][k] == id;
        assert ids[..n][k] == id && ids[k] == id;
      }
      if all != before {
        assert Reporters(all) == Reporters(before) + [ids[n - 1]] && ids[..n][n - 1] == ids[n - 1];
        AppendId(Reporters(before), ids[n - 1]);
      }
    }
  }

  lemma AppendId(ids: seq<ObservationId>, id: ObservationId)
    requires IdsAscend(ids) && forall x :: x in ids ==> x < id
    ensures IdsAscend(ids + [id])
  {
    forall k | 0 <= k < |ids| ensures ids[k] < id { assert ids[k] in ids; }
  }

  lemma OneApart(p: IpPrefix, id: ObservationId, networks: seq<IpPrefix>, others: seq<ObservationId>, ip: IpAddr, more: seq<Conflict>)
    requires forall x :: x in more ==> x == Conflict(PrefixesApart(p, networks, ip), [id] + others)
    ensures PartOf(more, 4, [id])
  {
    assert ([id] + others)[0] == id;
  }

  lemma ApartMore(bgp: seq<(IpPrefix, ObservationId)>, registered: seq<(IpPrefix, ObservationId)>, ip: IpAddr, n: nat)
    returns (more: seq<Conflict>)
    requires 0 < n <= |bgp|
    ensures ApartConflicts(bgp, registered, ip, n) == ApartConflicts(bgp, registered, ip, n - 1) + more
    ensures |more| <= 1 && PartOf(more, 4, [bgp[n - 1].1])
  {
    var (p, id) := bgp[n - 1];
    var networks, others := Prefixes(registered), Reporters(registered);
    more := if Isolated(p, networks) then [Conflict(PrefixesApart(p, networks, ip), [id] + others)] else [];
    OneApart(p, id, networks, others, ip, more);
  }

  lemma LastId(ids: seq<ObservationId>, n: nat)
    requires 0 < n <= |ids| && IdsAscend(ids)
    ensures ids[..n] == ids[..n - 1] + [ids[n - 1]] && IdsAscend(ids[..n])
  {
  }

  lemma {:induction false} ApartInTurn(bgp: seq<(IpPrefix, ObservationId)>, registered: seq<(IpPrefix, ObservationId)>, ip: IpAddr, n: nat)
    requires n <= |bgp| && IdsAscend(Reporters(bgp))
    ensures InTurn(ApartConflicts(bgp, registered, ip, n)) && PartOf(ApartConflicts(bgp, registered, ip, n), 4, Reporters(bgp)[..n])
  {
    if n > 0 {
      ApartInTurn(bgp, registered, ip, n - 1);
      LastId(Reporters(bgp), n);
      var more := ApartMore(bgp, registered, ip, n);
      OneMore(ApartConflicts(bgp, registered, ip, n - 1), 4, Reporters(bgp)[..n - 1], bgp[n - 1].1, more);
    }
  }

  lemma TwoParts(a: seq<Conflict>, b: seq<Conflict>, rank: nat)
    requires InTurn(a) && InTurn(b)
    requires (forall x :: x in a ==> PartRank(x.about) < rank) && forall x :: x in b ==> PartRank(x.about) >= rank
    ensures InTurn(a + b)
  {
    var all := a + b;
    forall i, j | 0 <= i < j < |all| ensures Before(all[i], all[j]) {
      if i < |a| && j >= |a| { assert a[i] in a && b[j - |a|] in b; }
    }
  }

  lemma OneSide(m: map<ObservationId, set<Entity>>, about: Dispute)
    ensures InTurn(Disagreement(m, about)) && forall x :: x in Disagreement(m, about) ==> x.about == about
  {
  }

  lemma ContainmentInTurn(ix: EvidenceIndex, ip: IpAddr, announced: seq<Relationship>, registered: seq<Relationship>)
    ensures InTurn(Containment(ix, ip, announced, registered))
    ensures forall x :: x in Containment(ix, ip, announced, registered) ==> PartRank(x.about) >= 2
  {
    var a, b := Ascending(CitedBy(announced), IdKey), Ascending(CitedBy(registered), IdKey);
    var bgp := Containing(ix, ip, a, |a|);
    CitedAscend(announced);
    CitedAscend(registered);
    MissesInTurn(ix, ip, a, |a|);
    ExclusionsInTurn(ix, ip, b, |b|);
    ContainingAscend(ix, ip, a, |a|);
    ApartInTurn(bgp, RegisteredPrefixes(registered), ip, |bgp|);
    ThreeParts(PrefixConflicts(ix, ip, a, |a|), RangeConflicts(ix, ip, b, |b|),
               ApartConflicts(bgp, RegisteredPrefixes(registered), ip, |bgp|), a[..|a|], b[..|b|], Reporters(bgp)[..|bgp|]);
  }

  lemma ThreeParts(x: seq<Conflict>, y: seq<Conflict>, z: seq<Conflict>, a: seq<ObservationId>, b: seq<ObservationId>, c: seq<ObservationId>)
    requires InTurn(x) && InTurn(y) && InTurn(z) && PartOf(x, 2, a) && PartOf(y, 3, b) && PartOf(z, 4, c)
    ensures InTurn(x + y + z) && forall w :: w in x + y + z ==> PartRank(w.about) >= 2
  {
    TwoParts(x, y, 3);
    TwoParts(x + y, z, 4);
  }

  /** The conflicts of a draft stand in order: the origins, the networks, then each part
      of the containment conflicts by the observation that raised it. */
  lemma ConflictsInTurn(ix: EvidenceIndex, ip: IpAddr, announced: seq<Relationship>, registered: seq<Relationship>)
    ensures InTurn(Conflicts(ix, ip, announced, registered))
  {
    var asns, networks := PerObservation(announced), PerObservation(registered);
    OneSide(asns, OriginsDiffer(ip, asns.Values));
    OneSide(networks, NetworksDiffer(ip, networks.Values));
    ContainmentInTurn(ix, ip, announced, registered);
    PartsInTurn(Disagreement(asns, OriginsDiffer(ip, asns.Values)), Disagreement(networks, NetworksDiffer(ip, networks.Values)),
                Containment(ix, ip, announced, registered));
  }

  lemma PartsInTurn(x: seq<Conflict>, y: seq<Conflict>, z: seq<Conflict>)
    requires InTurn(x) && InTurn(y) && InTurn(z)
    requires (forall w :: w in x ==> PartRank(w.about) == 0) && (forall w :: w in y ==> PartRank(w.about) == 1)
    requires forall w :: w in z ==> PartRank(w.about) >= 2
    ensures InTurn(x + y + z)
  {
    TwoParts(x, y, 1);
    TwoParts(x + y, z, 2);
  }

  // ------------------------------------------------------------------- the report

  lemma SidesAlike(s: Store, address: Entity, ip: IpAddr, x: Conflict, y: Conflict)
    requires ConflictTold(s, address, ip, x) && SameConflict(x, y)
    requires x.about.OriginsDiffer? || x.about.NetworksDiffer?
    ensures ConflictTold(s, address, ip, y)
  {
  }

  lemma OneAlike(s: Store, address: Entity, ip: IpAddr, x: Conflict, y: Conflict)
    requires ConflictTold(s, address, ip, x) && SameConflict(x, y)
    requires x.about.PrefixMissesAddress? || x.about.RangeMissesAddress?
    ensures ConflictTold(s, address, ip, y)
  {
    if x.about.PrefixMissesAddress? {
      var id :| Misses(s, address, ip, id, x.about.prefix) && Only(x.evidence, id);
      assert Only(y.evidence, id);
    } else {
      var id :| Excludes(s, address, id) && Only(x.evidence, id);
      assert Only(y.evidence, id);
    }
  }

  lemma ReportersAlike(s: Store, address: Entity, id: ObservationId, networks: seq<IpPrefix>, a: seq<ObservationId>, b: seq<ObservationId>)
    requires ReportersTold(s, address, id, networks, a) && SameIds(b, a)
    ensures ReportersTold(s, address, id, networks, b)
  {
  }

  lemma ToldAlike(s: Store, address: Entity, ip: IpAddr, x: Conflict, y: Conflict)
    requires ConflictTold(s, address, ip, x) && SameConflict(x, y)
    ensures ConflictTold(s, address, ip, y)
  {
    if x.about.PrefixesApart? {
      var id :| Apart(s, address, ip, id, x.about.prefix) && ReportersTold(s, address, id, x.about.networks, x.evidence);
      ReportersAlike(s, address, id, x.about.networks, x.evidence, y.evidence);
    } else if x.about.OriginsDiffer? || x.about.NetworksDiffer? {
      SidesAlike(s, address, ip, x, y);
    } else {
      OneAlike(s, address, ip, x, y);
    }
  }

  lemma EachAlike(s: Store, address: Entity, ip: IpAddr, xs: seq<Conflict>, ys: seq<Conflict>, y: Conflict)
    requires SameConflicts(xs, ys) && y in ys && forall x :: x in xs ==> ConflictTold(s, address, ip, x)
    ensures ConflictTold(s, address, ip, y)
  {
    var i :| 0 <= i < |ys| && ys[i] == y;
    assert xs[i] in xs;
    ToldAlike(s, address, ip, xs[i], y);
  }

  lemma HeardAlike(s: Store, address: Entity, ip: IpAddr, xs: seq<Conflict>, ys: seq<Conflict>)
    requires SameConflicts(xs, ys) && AllHeard(s, address, ip, xs)
    ensures AllHeard(s, address, ip, ys)
  {
    if Divided(s, AnnouncedBy, address) {
      var x :| x in xs && x.about.OriginsDiffer?;
      var y := SideKept(xs, ys, x);
    }
    if Divided(s, RegisteredIn, address) {
      var x :| x in xs && x.about.NetworksDiffer?;
      var y := SideKept(xs, ys, x);
    }
    forall id, p | Misses(s, address, ip, id, p) ensures MissHeard(ys, ip, id, p) {
      var x :| x in xs && x.about == PrefixMissesAddress(p, ip) && Only(x.evidence, id);
      var y := SideKept(xs, ys, x);
      assert Only(y.evidence, id);
    }
    forall id | Excludes(s, address, id) ensures ExclusionHeard(ys, ip, id) {
      var x :| x in xs && x.about == RangeMissesAddress(ip) && Only(x.evidence, id);
      var y := SideKept(xs, ys, x);
      assert Only(y.evidence, id);
    }
    forall id, p | Apart(s, address, ip, id, p) ensures ApartHeard(ys, id, p) {
      var x :| x in xs && x.about.PrefixesApart? && x.about.prefix == p && id in x.evidence;
      var y := SideKept(xs, ys, x);
    }
  }

  /** Conflicts that carry those of the draft for an address are the conflicts about it. */
  lemma CarriedTold(s: Store, address: Entity, ip: IpAddr, xs: seq<Conflict>)
    requires Sound(s) && Wired(IndexOf(s))
    requires SameConflicts(Conflicts(IndexOf(s), ip, From(IndexOf(s), AnnouncedBy, address), From(IndexOf(s), RegisteredIn, address)), xs)
    ensures ConflictsTold(s, address, ip, xs)
  {
    var announced, registered := From(IndexOf(s), AnnouncedBy, address), From(IndexOf(s), RegisteredIn, address);
    var drafted := Conflicts(IndexOf(s), ip, announced, registered);
    LinksAre(s, AnnouncedBy, address);
    LinksAre(s, RegisteredIn, address);
    LinksFrom(s, RegisteredIn, address);
    EvidenceThere(s, registered);
    ConflictsAre(s, address, ip, announced, registered);
    forall y | y in xs ensures ConflictTold(s, address, ip, y) { EachAlike(s, address, ip, drafted, xs, y); }
    HeardAlike(s, address, ip, drafted, xs);
  }

  lemma EvidenceThere(s: Store, links: seq<Relationship>)
    requires Sound(s) && forall l :: l in links ==> l in s.relationships
    ensures WithEvidence(links)
  {
    forall l | l in links ensures l.evidence != [] {
      var i :| 0 <= i < |s.relationships| && s.relationships[i] == l;
    }
  }
}
