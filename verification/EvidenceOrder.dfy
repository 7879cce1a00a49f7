/** How much of a report depends on the order of evidence inside an edge. Two
    runs that report one edge leave its evidence in the order of their
    completions. Everything in the report is the same for both, but for the
    order in which a link lists its evidence and the reporters that a routing
    conflict cites for the registered networks. */
module EvidenceOrder {
  import opened Results
  import opened Ordering
  import opened Net
  import opened Model
  import opened Investigation
  import opened Index
  import opened IndexFacts
  import opened CorrelationIds
  import opened Drafts
  import opened Emissions
  import Infrastructure
  import CertificateRules
  import Providers
  import Shared
  import Correlate

  // -------------------------------------------------------- evidence in order

  /** The same edge, its evidence ascending. */
  function InOrder(r: Relationship): (t: Relationship)
  {
    r.(evidence := Unique(r.evidence, IdKey))
  }

  function AllInOrder(rels: seq<Relationship>): (r: seq<Relationship>)
    ensures |r| == |rels| && forall i :: 0 <= i < |rels| ==> r[i] == InOrder(rels[i])
  {
    if rels == [] then [] else [InOrder(rels[0])] + AllInOrder(rels[1..])
  }

  lemma InOrderKeeps(r: Relationship)
    ensures InOrder(r).edge == r.edge && NoDuplicates(InOrder(r).evidence)
    ensures forall id :: id in InOrder(r).evidence <==> id in r.evidence
    ensures InOrder(r).evidence == [] <==> r.evidence == []
  {
    IdsApart(r.evidence);
    UniqueMeaning(r.evidence, IdKey);
    if r.evidence != [] { assert r.evidence[0] in InOrder(r).evidence; }
    if InOrder(r).evidence != [] { assert InOrder(r).evidence[0] in r.evidence; }
  }

  lemma Elementwise(a: seq<Relationship>, b: seq<Relationship>)
    requires |a| == |b| && forall i :: 0 <= i < |a| ==> b[i] == InOrder(a[i])
    ensures b == AllInOrder(a)
  {
  }

  lemma InOrderConcat(a: seq<Relationship>, b: seq<Relationship>)
    ensures AllInOrder(a + b) == AllInOrder(a) + AllInOrder(b)
  {
    Elementwise(a + b, AllInOrder(a) + AllInOrder(b));
  }

  lemma InOrderPrefix(a: seq<Relationship>, n: nat)
    requires n <= |a|
    ensures AllInOrder(a)[..n] == AllInOrder(a[..n])
  {
    Elementwise(a[..n], AllInOrder(a)[..n]);
  }

  ghost predicate OfEdge(key: Relationship -> Key)
  {
    forall r :: key(InOrder(r)) == key(r)
  }

  lemma {:induction false} InsertInOrder(x: Relationship, s: seq<Relationship>, key: Relationship -> Key)
    requires OfEdge(key)
    ensures Insert(InOrder(x), AllInOrder(s), key) == AllInOrder(Insert(x, s, key))
  {
    if s != [] && !KeyLe(key(x), key(s[0])) {
      InsertInOrder(x, s[1..], key);
      InOrderConcat([s[0]], Insert(x, s[1..], key));
      assert AllInOrder([s[0]]) == [InOrder(s[0])];
    } else {
      InOrderConcat([x], s);
      assert AllInOrder([x]) == [InOrder(x)];
    }
  }

  lemma {:induction false} SortInOrder(s: seq<Relationship>, key: Relationship -> Key)
    requires OfEdge(key)
    ensures SortBy(AllInOrder(s), key) == AllInOrder(SortBy(s, key))
  {
    if s != [] {
      SortInOrder(s[1..], key);
      InsertInOrder(s[0], SortBy(s[1..], key), key);
    }
  }

  lemma {:induction false} DedupInOrder(s: seq<Relationship>)
    ensures DedupBy(AllInOrder(s), EdgeOf) == AllInOrder(DedupBy(s, EdgeOf))
  {
    var n := |s|;
    if n >= 2 {
      DedupInOrder(s[..n - 1]);
      InOrderPrefix(s, n - 1);
      InOrderConcat(DedupBy(s[..n - 1], EdgeOf), [s[n - 1]]);
      assert AllInOrder([s[n - 1]]) == [InOrder(s[n - 1])];
    }
  }

  lemma CanonicalInOrder(s: seq<Relationship>)
    ensures Canonical(AllInOrder(s)) == AllInOrder(Canonical(s))
  {
    SortInOrder(s, RelationshipKey);
    DedupInOrder(SortBy(s, RelationshipKey));
  }

  lemma {:induction false} FilterInOrder(s: seq<Relationship>, p: Relationship -> bool)
    requires forall r :: p(InOrder(r)) == p(r)
    ensures Filter(AllInOrder(s), p) == AllInOrder(Filter(s, p))
  {
    if s != [] {
      FilterInOrder(s[1..], p);
      InOrderConcat(if p(s[0]) then [s[0]] else [], Filter(s[1..], p));
      assert AllInOrder([s[0]]) == [InOrder(s[0])];
    }
  }

  /** Parts with the evidence of each in order. */
  function PartsInOrder(parts: seq<seq<Relationship>>): (r: seq<seq<Relationship>>)
  {
    seq(|parts|, i requires 0 <= i < |parts| => AllInOrder(parts[i]))
  }

  lemma {:induction false} FlattenInOrder(parts: seq<seq<Relationship>>)
    ensures Flatten(PartsInOrder(parts)) == AllInOrder(Flatten(parts))
  {
    if parts != [] {
      var n := |parts| - 1;
      FlattenInOrder(parts[..n]);
      assert PartsInOrder(parts)[..n] == PartsInOrder(parts[..n]);
      InOrderConcat(Flatten(parts[..n]), parts[n]);
    }
  }

  // ---------------------------------------------------------------- the index

  function StoreInOrder(s: Store): (r: Store)
  {
    s.(relationships := AllInOrder(s.relationships))
  }

  function IxInOrder(ix: EvidenceIndex): (r: EvidenceIndex)
  {
    ix.(relationships := AllInOrder(ix.relationships))
  }

  /** The same edges, whatever their evidence. */
  ghost predicate SameEdges(t: seq<Relationship>, rels: seq<Relationship>)
  {
    |t| == |rels| && forall i :: 0 <= i < |rels| ==> t[i].edge == rels[i].edge
  }

  lemma {:induction false} SamePositions(t: seq<Relationship>, rels: seq<Relationship>, kind: RelationKind, e: Entity,
                                         atSource: bool, n: nat)
    requires SameEdges(t, rels) && n <= |rels|
    ensures Positions(t, kind, e, atSource, n) == Positions(rels, kind, e, atSource, n)
  {
    if n > 0 { SamePositions(t, rels, kind, e, atSource, n - 1); }
  }

  lemma SamePositionMap(t: seq<Relationship>, rels: seq<Relationship>, atSource: bool)
    requires SameEdges(t, rels)
    ensures PositionMap(t, atSource, |rels|) == PositionMap(rels, atSource, |rels|)
  {
    SameEnds(t, rels, atSource);
    SameEnds(rels, t, atSource);
    forall k | k in Ends(rels, atSource, |rels|)
      ensures Positions(t, k.0, k.1, atSource, |rels|) == Positions(rels, k.0, k.1, atSource, |rels|)
    {
      SamePositions(t, rels, k.0, k.1, atSource, |rels|);
    }
  }

  lemma SameEnds(t: seq<Relationship>, rels: seq<Relationship>, atSource: bool)
    requires SameEdges(t, rels)
    ensures Ends(rels, atSource, |rels|) <= Ends(t, atSource, |rels|)
  {
    forall k | k in Ends(rels, atSource, |rels|) ensures k in Ends(t, atSource, |rels|) {
      var i :| 0 <= i < |rels| && k == (rels[i].edge.kind, End(rels[i], atSource));
      assert k == (t[i].edge.kind, End(t[i], atSource));
    }
  }

  lemma SameEntities(t: seq<Relationship>, rels: seq<Relationship>)
    requires SameEdges(t, rels)
    ensures EntitiesOf(rels, |rels|) <= EntitiesOf(t, |rels|)
  {
    forall e | e in EntitiesOf(rels, |rels|) ensures e in EntitiesOf(t, |rels|) {
      var i :| 0 <= i < |rels| && (rels[i].edge.source == e || rels[i].edge.target == e);
      assert t[i].edge.source == e || t[i].edge.target == e;
    }
  }

  lemma SameTables(rels: seq<Relationship>)
    ensures var t := AllInOrder(rels);
      && PositionMap(t, true, |rels|) == PositionMap(rels, true, |rels|)
      && PositionMap(t, false, |rels|) == PositionMap(rels, false, |rels|)
      && EntitiesOf(t, |rels|) == EntitiesOf(rels, |rels|)
  {
    var t := AllInOrder(rels);
    assert SameEdges(t, rels) && SameEdges(rels, t);
    SamePositionMap(t, rels, true);
    SamePositionMap(t, rels, false);
    SameEntities(t, rels);
    SameEntities(rels, t);
  }

  lemma IndexInOrder(s: Store)
    ensures IndexOf(StoreInOrder(s)) == IxInOrder(IndexOf(s))
  {
    var rels := Canonical(s.relationships);
    CanonicalInOrder(s.relationships);
    SameTables(rels);
  }

  lemma WiredInOrder(ix: EvidenceIndex)
    requires Wired(ix)
    ensures Wired(IxInOrder(ix))
  {
    SameTables(ix.relationships);
  }

  lemma LookupInOrder(ix: EvidenceIndex, m: map<(RelationKind, Entity), seq<nat>>, kind: RelationKind, e: Entity)
    requires PositionsValid(ix, m)
    ensures PositionsValid(IxInOrder(ix), m)
    ensures Lookup(IxInOrder(ix), m, kind, e) == AllInOrder(Lookup(ix, m, kind, e))
  {
    Elementwise(Lookup(ix, m, kind, e), Lookup(IxInOrder(ix), m, kind, e));
  }

  lemma LookupsInOrder(ix: EvidenceIndex, kind: RelationKind, e: Entity)
    requires Wired(ix) && Wired(IxInOrder(ix))
    ensures From(IxInOrder(ix), kind, e) == AllInOrder(From(ix, kind, e))
    ensures To(IxInOrder(ix), kind, e) == AllInOrder(To(ix, kind, e))
  {
    LookupInOrder(ix, ix.byKindSource, kind, e);
    LookupInOrder(ix, ix.byKindTarget, kind, e);
  }

  lemma OfKindInOrder(ix: EvidenceIndex, kind: RelationKind)
    ensures OfKind(IxInOrder(ix), kind) == AllInOrder(OfKind(ix, kind))
  {
    FilterInOrder(ix.relationships, (r: Relationship) => r.edge.kind == kind);
  }

  // --------------------------------------------------------------- drafts alike

  /** The same conflict, up to the reporters cited for registered networks. */
  ghost predicate ConflictAlike(c: Conflict, t: Conflict)
  {
    && t.about == c.about && (c.about.PrefixesApart? || t.evidence == c.evidence)
    && (t.evidence == [] <==> c.evidence == [])
  }

  ghost predicate ConflictsAlike(cs: seq<Conflict>, ts: seq<Conflict>)
  {
    |ts| == |cs| && forall i :: 0 <= i < |cs| ==> ConflictAlike(cs[i], ts[i])
  }

  /** The same draft with the evidence of its links in order; it cites the same. */
  ghost predicate DraftAlike(d: Draft, t: Draft)
  {
    && t == d.(links := AllInOrder(d.links), conflicts := t.conflicts)
    && ConflictsAlike(d.conflicts, t.conflicts)
    && forall id :: Cites(t, id) <==> Cites(d, id)
  }

  ghost predicate EmissionAlike(e: Emission, t: Emission)
  {
    t.kind == e.kind && DraftAlike(e.draft, t.draft)
  }

  ghost predicate LogAlike(log: seq<Emission>, other: seq<Emission>)
  {
    |other| == |log| && forall i :: 0 <= i < |log| ==> EmissionAlike(log[i], other[i])
  }

  ghost predicate MaybeAlike(d: Option<Draft>, t: Option<Draft>)
  {
    (t.None? && d.None?) || (t.Some? && d.Some? && DraftAlike(d.value, t.value))
  }

  lemma EmittingAlike(kind: CorrelationKind, d: Option<Draft>, t: Option<Draft>)
    requires MaybeAlike(d, t)
    ensures LogAlike(Emitting(kind, d), Emitting(kind, t))
  {
  }

  lemma LogConcat(a: seq<Emission>, b: seq<Emission>, x: seq<Emission>, y: seq<Emission>)
    requires LogAlike(a, x) && LogAlike(b, y)
    ensures LogAlike(a + b, x + y)
  {
  }

  lemma {:induction false} StagesAlike(a: seq<seq<Emission>>, p: seq<seq<Emission>>, b: seq<seq<Emission>>, q: seq<seq<Emission>>, n: nat)
    requires Staged(a, p) && Staged(b, q) && |p| == |q| && n <= |p|
    requires forall i :: 0 <= i < |p| ==> LogAlike(p[i], q[i])
    ensures LogAlike(a[n], b[n])
  {
    if n > 0 {
      StagesAlike(a, p, b, q, n - 1);
      assert a[n - 1 + 1] == a[n - 1] + p[n - 1] && b[n - 1 + 1] == b[n - 1] + q[n - 1];
      LogConcat(a[n - 1], p[n - 1], b[n - 1], q[n - 1]);
    }
  }

  /** The observations that links cite. */
  lemma CitedInOrder(links: seq<Relationship>)
    ensures Infrastructure.CitedBy(AllInOrder(links)) == Infrastructure.CitedBy(links)
    ensures forall id :: Infrastructure.NamedBy(AllInOrder(links), id) == Infrastructure.NamedBy(links, id)
  {
    var t := AllInOrder(links);
    forall i | 0 <= i < |links|
      ensures t[i].edge == links[i].edge && forall id :: id in t[i].evidence <==> id in links[i].evidence
    {
      InOrderKeeps(links[i]);
    }
    SameCitations(links, t);
    SameCitations(t, links);
  }

  lemma SameCitations(a: seq<Relationship>, b: seq<Relationship>)
    requires |a| == |b|
    requires forall i :: 0 <= i < |a| ==> b[i].edge == a[i].edge && forall id :: id in b[i].evidence <==> id in a[i].evidence
    ensures Infrastructure.CitedBy(a) <= Infrastructure.CitedBy(b)
    ensures forall id :: Infrastructure.NamedBy(a, id) <= Infrastructure.NamedBy(b, id)
  {
    forall id | id in Infrastructure.CitedBy(a) ensures id in Infrastructure.CitedBy(b) {
      var l :| l in a && id in l.evidence;
      var i :| 0 <= i < |a| && a[i] == l;
      assert id in b[i].evidence;
    }
    forall id, e | e in Infrastructure.NamedBy(a, id) ensures e in Infrastructure.NamedBy(b, id) {
      var l :| l in a && id in l.evidence && l.edge.target == e;
      var i :| 0 <= i < |a| && a[i] == l;
      assert id in b[i].evidence && b[i].edge.target == e;
    }
  }

  lemma LinksCite(d: Draft, id: ObservationId)
    ensures (exists l :: l in d.links && id in l.evidence) <==> id in Infrastructure.CitedBy(d.links)
  {
  }

  /** A draft that differs in its links alone. */
  lemma LinksAlike(d: Draft, t: Draft)
    requires t == d.(links := AllInOrder(d.links))
    ensures DraftAlike(d, t)
  {
    CitedInOrder(d.links);
    forall id ensures Cites(t, id) <==> Cites(d, id) {
      LinksCite(d, id);
      LinksCite(t, id);
    }
  }

  // ------------------------------------------------------------ infrastructure

  lemma {:induction false} ApartAlike(bgp: seq<(IpPrefix, ObservationId)>, a: seq<(IpPrefix, ObservationId)>,
                                      b: seq<(IpPrefix, ObservationId)>, ip: IpAddr, n: nat)
    requires n <= |bgp| && Infrastructure.Prefixes(a) == Infrastructure.Prefixes(b)
    ensures ConflictsAlike(Infrastructure.ApartConflicts(bgp, a, ip, n), Infrastructure.ApartConflicts(bgp, b, ip, n))
  {
    if n > 0 { ApartAlike(bgp, a, b, ip, n - 1); }
  }

  lemma {:induction false} SamePrefixes(links: seq<Relationship>)
    ensures Infrastructure.Prefixes(Infrastructure.RegisteredPrefixes(AllInOrder(links)))
         == Infrastructure.Prefixes(Infrastructure.RegisteredPrefixes(links))
  {
    if links != [] {
      InOrderKeeps(links[0]);
      SamePrefixes(links[1..]);
      PrefixesCons(links);
      PrefixesCons(AllInOrder(links));
      assert AllInOrder(links)[1..] == AllInOrder(links[1..]);
    }
  }

  lemma PrefixesCons(links: seq<Relationship>)
    requires links != []
    ensures Infrastructure.Prefixes(Infrastructure.RegisteredPrefixes(links))
         == (if links[0].edge.target.Network? && links[0].evidence != [] then [links[0].edge.target.prefix] else [])
            + Infrastructure.Prefixes(Infrastructure.RegisteredPrefixes(links[1..]))
  {
  }

  lemma {:induction false} SameContaining(ix: EvidenceIndex, ip: IpAddr, ids: seq<ObservationId>, n: nat)
    requires n <= |ids|
    ensures Infrastructure.Containing(IxInOrder(ix), ip, ids, n) == Infrastructure.Containing(ix, ip, ids, n)
  {
    if n > 0 { SameContaining(ix, ip, ids, n - 1); }
  }

  lemma {:induction false} SamePrefixConflicts(ix: EvidenceIndex, ip: IpAddr, ids: seq<ObservationId>, n: nat)
    requires n <= |ids|
    ensures Infrastructure.PrefixConflicts(IxInOrder(ix), ip, ids, n) == Infrastructure.PrefixConflicts(ix, ip, ids, n)
  {
    if n > 0 { SamePrefixConflicts(ix, ip, ids, n - 1); }
  }

  lemma {:induction false} SameRangeConflicts(ix: EvidenceIndex, ip: IpAddr, ids: seq<ObservationId>, n: nat)
    requires n <= |ids|
    ensures Infrastructure.RangeConflicts(IxInOrder(ix), ip, ids, n) == Infrastructure.RangeConflicts(ix, ip, ids, n)
  {
    if n > 0 { SameRangeConflicts(ix, ip, ids, n - 1); }
  }

  lemma SameConflicts(cs: seq<Conflict>)
    ensures ConflictsAlike(cs, cs)
  {
  }

  lemma ConflictsConcat(a: seq<Conflict>, b: seq<Conflict>, x: seq<Conflict>, y: seq<Conflict>)
    requires ConflictsAlike(a, x) && ConflictsAlike(b, y)
    ensures ConflictsAlike(a + b, x + y)
  {
  }

  lemma ContainmentAlike(ix: EvidenceIndex, ip: IpAddr, announced: seq<Relationship>, registered: seq<Relationship>)
    ensures ConflictsAlike(Infrastructure.Containment(ix, ip, announced, registered),
                           Infrastructure.Containment(IxInOrder(ix), ip, AllInOrder(announced), AllInOrder(registered)))
  {
    var a, b := Ascending(Infrastructure.CitedBy(announced), IdKey), Ascending(Infrastructure.CitedBy(registered), IdKey);
    var bgp := Infrastructure.Containing(ix, ip, a, |a|);
    CitedInOrder(announced);
    CitedInOrder(registered);
    SameContaining(ix, ip, a, |a|);
    SamePrefixConflicts(ix, ip, a, |a|);
    SameRangeConflicts(ix, ip, b, |b|);
    SamePrefixes(registered);
    ApartAlike(bgp, Infrastructure.RegisteredPrefixes(registered), Infrastructure.RegisteredPrefixes(AllInOrder(registered)), ip, |bgp|);
    var same := Infrastructure.PrefixConflicts(ix, ip, a, |a|) + Infrastructure.RangeConflicts(ix, ip, b, |b|);
    SameConflicts(same);
    ConflictsConcat(same, Infrastructure.ApartConflicts(bgp, Infrastructure.RegisteredPrefixes(registered), ip, |bgp|),
                    same, Infrastructure.ApartConflicts(bgp, Infrastructure.RegisteredPrefixes(AllInOrder(registered)), ip, |bgp|));
  }

  lemma SameSides(links: seq<Relationship>)
    ensures Infrastructure.PerObservation(AllInOrder(links)) == Infrastructure.PerObservation(links)
  {
    CitedInOrder(links);
  }

  lemma ContextConflictsAlike(ix: EvidenceIndex, ip: IpAddr, announced: seq<Relationship>, registered: seq<Relationship>)
    ensures ConflictsAlike(Infrastructure.Conflicts(ix, ip, announced, registered),
                           Infrastructure.Conflicts(IxInOrder(ix), ip, AllInOrder(announced), AllInOrder(registered)))
  {
    SameSides(announced);
    SameSides(registered);
    ContainmentAlike(ix, ip, announced, registered);
    var asns, networks := Infrastructure.PerObservation(announced), Infrastructure.PerObservation(registered);
    var same := Infrastructure.Disagreement(asns, OriginsDiffer(ip, asns.Values))
              + Infrastructure.Disagreement(networks, NetworksDiffer(ip, networks.Values));
    SameConflicts(same);
    ConflictsConcat(same, Infrastructure.Containment(ix, ip, announced, registered),
                    same, Infrastructure.Containment(IxInOrder(ix), ip, AllInOrder(announced), AllInOrder(registered)));
  }

  /** All that these conflicts cite. */
  ghost predicate CitesWithin(cs: seq<Conflict>, ids: set<ObservationId>)
  {
    forall c, id :: c in cs && id in c.evidence ==> id in ids
  }

  lemma {:induction false} ReportersCited(links: seq<Relationship>)
    ensures forall id :: id in Infrastructure.Reporters(Infrastructure.RegisteredPrefixes(links)) ==>
              id in Infrastructure.CitedBy(links)
  {
    if links != [] {
      ReportersCited(links[1..]);
      var all, rest := Infrastructure.Reporters(Infrastructure.RegisteredPrefixes(links)),
                       Infrastructure.Reporters(Infrastructure.RegisteredPrefixes(links[1..]));
      var l := links[0];
      assert all == (if l.edge.target.Network? && l.evidence != [] then [l.evidence[0]] else []) + rest;
      assert links == [l] + links[1..];
      assert l in links && Infrastructure.CitedBy(links[1..]) <= Infrastructure.CitedBy(links);
      if l.evidence != [] { assert l.evidence[0] in l.evidence; }
    }
  }

  lemma ApartCites(ix: EvidenceIndex, ip: IpAddr, announced: seq<Relationship>, registered: seq<Relationship>)
    ensures var a := Ascending(Infrastructure.CitedBy(announced), IdKey);
      var bgp := Infrastructure.Containing(ix, ip, a, |a|);
      CitesWithin(Infrastructure.ApartConflicts(bgp, Infrastructure.RegisteredPrefixes(registered), ip, |bgp|),
                  Infrastructure.CitedBy(announced) + Infrastructure.CitedBy(registered))
  {
    var a := Ascending(Infrastructure.CitedBy(announced), IdKey);
    var bgp, networks := Infrastructure.Containing(ix, ip, a, |a|), Infrastructure.RegisteredPrefixes(registered);
    Infrastructure.ContainingMembers(ix, ip, a, |a|);
    Infrastructure.ApartConflictMembers(bgp, networks, ip, |bgp|);
    ReportersCited(registered);
    forall i | 0 <= i < |bgp| ensures bgp[i].1 in Infrastructure.CitedBy(announced) {
      assert bgp[i] in bgp;
      var j :| 0 <= j < |a| && bgp[i].1 == a[j];
      assert a[j] in a;
    }
  }

  lemma CitesConcat(a: seq<Conflict>, b: seq<Conflict>, ids: set<ObservationId>)
    requires CitesWithin(a, ids) && CitesWithin(b, ids)
    ensures CitesWithin(a + b, ids)
  {
  }

  lemma SidesCite(links: seq<Relationship>, about: Dispute, ids: set<ObservationId>)
    requires Infrastructure.CitedBy(links) <= ids
    ensures CitesWithin(Infrastructure.Disagreement(Infrastructure.PerObservation(links), about), ids)
  {
    Infrastructure.DisagreementCites(Infrastructure.PerObservation(links), about);
  }

  lemma MissesCite(ix: EvidenceIndex, ip: IpAddr, links: seq<Relationship>, ids: set<ObservationId>)
    requires Infrastructure.CitedBy(links) <= ids
    ensures var a := Ascending(Infrastructure.CitedBy(links), IdKey);
      && CitesWithin(Infrastructure.PrefixConflicts(ix, ip, a, |a|), ids)
      && CitesWithin(Infrastructure.RangeConflicts(ix, ip, a, |a|), ids)
  {
    var a := Ascending(Infrastructure.CitedBy(links), IdKey);
    Infrastructure.PrefixConflictMembers(ix, ip, a, |a|);
    Infrastructure.RangeConflictMembers(ix, ip, a, |a|);
    forall i | 0 <= i < |a| ensures a[i] in ids { assert a[i] in a; }
  }

  lemma ContainmentCites(ix: EvidenceIndex, ip: IpAddr, announced: seq<Relationship>, registered: seq<Relationship>)
    ensures CitesWithin(Infrastructure.Containment(ix, ip, announced, registered),
                        Infrastructure.CitedBy(announced) + Infrastructure.CitedBy(registered))
  {
    var ids := Infrastructure.CitedBy(announced) + Infrastructure.CitedBy(registered);
    var a, b := Ascending(Infrastructure.CitedBy(announced), IdKey), Ascending(Infrastructure.CitedBy(registered), IdKey);
    var bgp := Infrastructure.Containing(ix, ip, a, |a|);
    MissesCite(ix, ip, announced, ids);
    MissesCite(ix, ip, registered, ids);
    ApartCites(ix, ip, announced, registered);
    var misses := Infrastructure.PrefixConflicts(ix, ip, a, |a|) + Infrastructure.RangeConflicts(ix, ip, b, |b|);
    CitesConcat(Infrastructure.PrefixConflicts(ix, ip, a, |a|), Infrastructure.RangeConflicts(ix, ip, b, |b|), ids);
    CitesConcat(misses, Infrastructure.ApartConflicts(bgp, Infrastructure.RegisteredPrefixes(registered), ip, |bgp|), ids);
  }

  lemma ConflictsCite(ix: EvidenceIndex, ip: IpAddr, announced: seq<Relationship>, registered: seq<Relationship>)
    ensures CitesWithin(Infrastructure.Conflicts(ix, ip, announced, registered),
                        Infrastructure.CitedBy(announced) + Infrastructure.CitedBy(registered))
  {
    var ids := Infrastructure.CitedBy(announced) + Infrastructure.CitedBy(registered);
    var asns, networks := Infrastructure.PerObservation(announced), Infrastructure.PerObservation(registered);
    var x := Infrastructure.Disagreement(asns, OriginsDiffer(ip, asns.Values));
    var y := Infrastructure.Disagreement(networks, NetworksDiffer(ip, networks.Values));
    SidesCite(announced, OriginsDiffer(ip, asns.Values), ids);
    SidesCite(registered, NetworksDiffer(ip, networks.Values), ids);
    ContainmentCites(ix, ip, announced, registered);
    CitesConcat(x, y, ids);
    CitesConcat(x + y, Infrastructure.Containment(ix, ip, announced, registered), ids);
  }

  /** What a context draft cites: the evidence of its links, nothing else. */
  lemma ContextCites(ix: EvidenceIndex, resolves: Relationship, ip: IpAddr, subject: Indicator,
                     announced: seq<Relationship>, registered: seq<Relationship>, id: ObservationId)
    ensures var d := Infrastructure.ContextDraft(ix, resolves, ip, subject, announced, registered);
      Cites(d, id) <==> id in Infrastructure.CitedBy(d.links)
  {
    var d := Infrastructure.ContextDraft(ix, resolves, ip, subject, announced, registered);
    ConflictsCite(ix, ip, announced, registered);
    LinksCite(d, id);
    assert Infrastructure.CitedBy(announced) + Infrastructure.CitedBy(registered) <= Infrastructure.CitedBy(d.links);
  }

  lemma TargetsInOrder(links: seq<Relationship>)
    ensures Infrastructure.Targets(AllInOrder(links)) == Infrastructure.Targets(links)
  {
  }

  lemma ContextAlike(ix: EvidenceIndex, resolves: Relationship, ip: IpAddr, subject: Indicator,
                     announced: seq<Relationship>, registered: seq<Relationship>)
    ensures DraftAlike(Infrastructure.ContextDraft(ix, resolves, ip, subject, announced, registered),
                       Infrastructure.ContextDraft(IxInOrder(ix), InOrder(resolves), ip, subject,
                                                   AllInOrder(announced), AllInOrder(registered)))
  {
    var d := Infrastructure.ContextDraft(ix, resolves, ip, subject, announced, registered);
    var t := Infrastructure.ContextDraft(IxInOrder(ix), InOrder(resolves), ip, subject, AllInOrder(announced), AllInOrder(registered));
    InOrderConcat(announced, registered);
    InOrderConcat([resolves], announced + registered);
    assert AllInOrder([resolves]) == [InOrder(resolves)];
    assert t.links == AllInOrder(d.links);
    TargetsInOrder(announced + registered);
    SameSides(announced);
    ContextConflictsAlike(ix, ip, announced, registered);
    CitedInOrder(d.links);
    forall id ensures Cites(t, id) <==> Cites(d, id) {
      ContextCites(ix, resolves, ip, subject, announced, registered, id);
      ContextCites(IxInOrder(ix), InOrder(resolves), ip, subject, AllInOrder(announced), AllInOrder(registered), id);
    }
  }

  lemma DraftForAlike(ix: EvidenceIndex, resolves: Relationship)
    requires Wired(ix) && Wired(IxInOrder(ix))
    ensures MaybeAlike(Infrastructure.DraftFor(ix, resolves), Infrastructure.DraftFor(IxInOrder(ix), InOrder(resolves)))
  {
    var target := resolves.edge.target;
    LookupsInOrder(ix, AnnouncedBy, target);
    LookupsInOrder(ix, RegisteredIn, target);
    match IpOf(target) {
      case None =>
      case Some(ip) =>
        ContextAlike(ix, resolves, ip, target.indicator, From(ix, AnnouncedBy, target), From(ix, RegisteredIn, target));
    }
  }

  lemma DraftPartsAlike(ix: EvidenceIndex, resolutions: seq<Relationship>)
    requires Wired(ix) && Wired(IxInOrder(ix))
    ensures var p, q := Infrastructure.DraftParts(ix, resolutions), Infrastructure.DraftParts(IxInOrder(ix), AllInOrder(resolutions));
      |p| == |q| && forall i :: 0 <= i < |p| ==> LogAlike(p[i], q[i])
  {
    forall i | 0 <= i < |resolutions|
      ensures LogAlike(Emitting(DomainIpInfrastructure, Infrastructure.DraftFor(ix, resolutions[i])),
                       Emitting(DomainIpInfrastructure, Infrastructure.DraftFor(IxInOrder(ix), InOrder(resolutions[i]))))
    {
      DraftForAlike(ix, resolutions[i]);
      EmittingAlike(DomainIpInfrastructure, Infrastructure.DraftFor(ix, resolutions[i]),
                    Infrastructure.DraftFor(IxInOrder(ix), InOrder(resolutions[i])));
    }
  }

  lemma DraftedAlike(ix: EvidenceIndex, resolutions: seq<Relationship>)
    requires Wired(ix) && Wired(IxInOrder(ix))
    ensures LogAlike(Infrastructure.Drafted(ix, resolutions, |resolutions|),
                     Infrastructure.Drafted(IxInOrder(ix), AllInOrder(resolutions), |resolutions|))
  {
    Infrastructure.DraftsStaged(ix, resolutions);
    Infrastructure.DraftsStaged(IxInOrder(ix), AllInOrder(resolutions));
    DraftPartsAlike(ix, resolutions);
    StagesAlike(Infrastructure.DraftStages(ix, resolutions), Infrastructure.DraftParts(ix, resolutions),
                Infrastructure.DraftStages(IxInOrder(ix), AllInOrder(resolutions)), Infrastructure.DraftParts(IxInOrder(ix), AllInOrder(resolutions)),
                |resolutions|);
  }

  lemma InfrastructureAlike(ix: EvidenceIndex)
    requires Wired(ix) && Wired(IxInOrder(ix))
    ensures LogAlike(Infrastructure.Emitted(ix), Infrastructure.Emitted(IxInOrder(ix)))
  {
    OfKindInOrder(ix, ResolvesTo);
    DraftedAlike(ix, OfKind(ix, ResolvesTo));
  }

  // ------------------------------------------------------------------ providers

  lemma {:induction false} ProvidersSame(ix: EvidenceIndex, indicators: seq<Indicator>, n: nat)
    requires n <= |indicators|
    ensures Providers.EmittedUpTo(IxInOrder(ix), indicators, n) == Providers.EmittedUpTo(ix, indicators, n)
  {
    if n > 0 { ProvidersSame(ix, indicators, n - 1); }
  }

  lemma {:induction false} NoLinks(log: seq<Emission>)
    requires forall e :: e in log ==> e.draft.links == []
    ensures LogAlike(log, log)
  {
    forall i | 0 <= i < |log| ensures EmissionAlike(log[i], log[i]) {
      assert log[i] in log;
      LinksAlike(log[i].draft, log[i].draft);
    }
  }

  lemma {:induction false} ProvidersLinkNothing(ix: EvidenceIndex, indicators: seq<Indicator>, n: nat)
    requires n <= |indicators|
    ensures forall e :: e in Providers.EmittedUpTo(ix, indicators, n) ==> e.draft.links == []
  {
    if n > 0 { ProvidersLinkNothing(ix, indicators, n - 1); }
  }

  lemma ProvidersAlike(ix: EvidenceIndex)
    ensures LogAlike(Providers.Emitted(ix), Providers.Emitted(IxInOrder(ix)))
  {
    var indicators := Ascending(ix.byIndicator.Keys, IndicatorKey);
    ProvidersSame(ix, indicators, |indicators|);
    ProvidersLinkNothing(ix, indicators, |indicators|);
    NoLinks(Providers.Emitted(ix));
  }

  // --------------------------------------------------------------- certificates

  lemma CoverInOrder(ix: EvidenceIndex, e: Entity)
    requires Wired(ix) && Wired(IxInOrder(ix))
    ensures CertificateRules.CoverLinks(IxInOrder(ix), e) == AllInOrder(CertificateRules.CoverLinks(ix, e))
  {
    LookupsInOrder(ix, CoversName, e);
    LookupsInOrder(ix, CoversWildcard, e);
    InOrderConcat(To(ix, CoversName, e), To(ix, CoversWildcard, e));
  }

  lemma CutInOrder(links: seq<Relationship>, n: nat)
    ensures CertificateRules.Cut(AllInOrder(links), n) == AllInOrder(CertificateRules.Cut(links, n))
  {
    if |links| > n { InOrderPrefix(links, n); }
  }

  lemma DomainDraftAlike(ix: EvidenceIndex, name: string)
    requires Wired(ix) && Wired(IxInOrder(ix))
    ensures MaybeAlike(CertificateRules.DomainDraft(ix, name), CertificateRules.DomainDraft(IxInOrder(ix), name))
  {
    var links := CertificateRules.CoverLinks(ix, CertificateRules.DomainEntity(name));
    CoverInOrder(ix, CertificateRules.DomainEntity(name));
    if links != [] {
      var sorted := SortBy(links, CertificateRules.LinkOrder);
      SortInOrder(links, CertificateRules.LinkOrder);
      CutInOrder(sorted, CertificateRules.MAX_LINKS);
      ListedAlike(ix, name, CertificateRules.Cut(sorted, CertificateRules.MAX_LINKS), |links|);
    }
  }

  lemma ListedAlike(ix: EvidenceIndex, name: string, shown: seq<Relationship>, total: nat)
    ensures DraftAlike(CertificateRules.ListedDraft(ix, name, shown, total),
                       CertificateRules.ListedDraft(IxInOrder(ix), name, AllInOrder(shown), total))
  {
    assert CertificateRules.SourcesOf(AllInOrder(shown)) == CertificateRules.SourcesOf(shown);
    LinksAlike(CertificateRules.ListedDraft(ix, name, shown, total),
               CertificateRules.ListedDraft(IxInOrder(ix), name, AllInOrder(shown), total));
  }

  lemma DnsLinksInOrder(ix: EvidenceIndex)
    ensures CertificateRules.DnsLinks(IxInOrder(ix)) == AllInOrder(CertificateRules.DnsLinks(ix))
  {
    var a, b, c, d := OfKind(ix, ResolvesTo), OfKind(ix, AliasOf), OfKind(ix, HasMailExchanger), OfKind(ix, HasNameserver);
    OfKindInOrder(ix, ResolvesTo);
    OfKindInOrder(ix, AliasOf);
    OfKindInOrder(ix, HasMailExchanger);
    OfKindInOrder(ix, HasNameserver);
    InOrderConcat(a, b);
    InOrderConcat(a + b, c);
    InOrderConcat(a + b + c, d);
  }

  lemma CoveringInOrder(ix: EvidenceIndex)
    ensures Shared.Covering(IxInOrder(ix)) == AllInOrder(Shared.Covering(ix))
  {
    OfKindInOrder(ix, CoversName);
    OfKindInOrder(ix, CoversWildcard);
    InOrderConcat(OfKind(ix, CoversName), OfKind(ix, CoversWildcard));
  }

  /** Each link has one with the same edge. */
  lemma SameLinks(links: seq<Relationship>)
    ensures forall l :: l in links ==> InOrder(l) in AllInOrder(links)
    ensures forall t :: t in AllInOrder(links) ==> exists l :: l in links && t == InOrder(l)
  {
    var ts := AllInOrder(links);
    forall l | l in links ensures InOrder(l) in ts {
      var i :| 0 <= i < |links| && links[i] == l;
      assert ts[i] == InOrder(l);
    }
    forall t | t in ts ensures exists l :: l in links && t == InOrder(l) {
      var i :| 0 <= i < |ts| && ts[i] == t;
      assert links[i] in links;
    }
  }

  lemma SameNamesAt(links: seq<Relationship>, atSource: bool)
    ensures CertificateRules.NamesAt(AllInOrder(links), atSource) == CertificateRules.NamesAt(links, atSource)
  {
    SameLinks(links);
    var ts := AllInOrder(links);
    forall n | n in CertificateRules.NamesAt(links, atSource) ensures n in CertificateRules.NamesAt(ts, atSource) {
      var l :| l in links && CertificateRules.NameOf(End(l, atSource)) == Some(n);
      assert InOrder(l) in ts && End(InOrder(l), atSource) == End(l, atSource);
    }
    forall n | n in CertificateRules.NamesAt(ts, atSource) ensures n in CertificateRules.NamesAt(links, atSource) {
      var t :| t in ts && CertificateRules.NameOf(End(t, atSource)) == Some(n);
      var l :| l in links && t == InOrder(l);
      assert End(l, atSource) == End(t, atSource);
    }
  }

  lemma SameCtNames(links: seq<Relationship>, target: string)
    ensures CertificateRules.CtNames(AllInOrder(links), target) == CertificateRules.CtNames(links, target)
  {
    forall n ensures n in CertificateRules.CtNames(AllInOrder(links), target) <==> n in CertificateRules.CtNames(links, target) {
      CertificateRules.CtNameExactly(links, target, n);
      CertificateRules.CtNameExactly(AllInOrder(links), target, n);
      SameLinks(links);
      if l :| l in links && l.edge.target == CertificateRules.DomainEntity(n) {
        assert InOrder(l).edge.target == CertificateRules.DomainEntity(n);
      }
    }
  }

  lemma {:induction false} SameAbout(ix: EvidenceIndex, indicators: seq<Indicator>, n: nat)
    requires n <= |indicators|
    ensures CertificateRules.AllAbout(IxInOrder(ix), indicators, n) == CertificateRules.AllAbout(ix, indicators, n)
  {
    if n > 0 { SameAbout(ix, indicators, n - 1); }
  }

  lemma SameObservations(ix: EvidenceIndex)
    ensures CertificateRules.AllObservations(IxInOrder(ix)) == CertificateRules.AllObservations(ix)
  {
    var indicators := Ascending(ix.byIndicator.Keys, IndicatorKey);
    SameAbout(ix, indicators, |indicators|);
  }

  lemma SharedNamesSame(ix: EvidenceIndex, target: string)
    ensures CertificateRules.SharedNames(IxInOrder(ix), target) == CertificateRules.SharedNames(ix, target)
    ensures CertificateRules.CtNames(Shared.Covering(IxInOrder(ix)), target) == CertificateRules.CtNames(Shared.Covering(ix), target)
  {
    CoveringInOrder(ix);
    SameCtNames(Shared.Covering(ix), target);
    DnsLinksInOrder(ix);
    SameNamesAt(CertificateRules.DnsLinks(ix), true);
    SameNamesAt(CertificateRules.DnsLinks(ix), false);
    SameObservations(ix);
  }

  lemma BothEndsInOrder(ix: EvidenceIndex, kind: RelationKind, e: Entity)
    requires Wired(ix) && Wired(IxInOrder(ix))
    ensures CertificateRules.BothEnds(IxInOrder(ix), kind, e) == AllInOrder(CertificateRules.BothEnds(ix, kind, e))
  {
    LookupsInOrder(ix, kind, e);
    InOrderConcat(From(ix, kind, e), To(ix, kind, e));
  }

  lemma DnsLinksOfInOrder(ix: EvidenceIndex, e: Entity)
    requires Wired(ix) && Wired(IxInOrder(ix))
    ensures CertificateRules.DnsLinksOf(IxInOrder(ix), e) == AllInOrder(CertificateRules.DnsLinksOf(ix, e))
  {
    var a, b := CertificateRules.BothEnds(ix, ResolvesTo, e), CertificateRules.BothEnds(ix, AliasOf, e);
    var c, d := CertificateRules.BothEnds(ix, HasMailExchanger, e), CertificateRules.BothEnds(ix, HasNameserver, e);
    BothEndsInOrder(ix, ResolvesTo, e);
    BothEndsInOrder(ix, AliasOf, e);
    BothEndsInOrder(ix, HasMailExchanger, e);
    BothEndsInOrder(ix, HasNameserver, e);
    InOrderConcat(a, b);
    InOrderConcat(a + b, c);
    InOrderConcat(a + b + c, d);
  }

  lemma NameLinksInOrder(ix: EvidenceIndex, name: string)
    requires Wired(ix) && Wired(IxInOrder(ix))
    ensures CertificateRules.NameLinks(IxInOrder(ix), name) == AllInOrder(CertificateRules.NameLinks(ix, name))
    ensures CertificateRules.Oversized(IxInOrder(ix), name) == CertificateRules.Oversized(ix, name)
  {
    var e := CertificateRules.DomainEntity(name);
    var covers := CertificateRules.CoverLinks(ix, e);
    CoverInOrder(ix, e);
    CutInOrder(covers, CertificateRules.CT_LINKS_PER_NAME);
    DnsLinksOfInOrder(ix, e);
    InOrderConcat(CertificateRules.Cut(covers, CertificateRules.CT_LINKS_PER_NAME), CertificateRules.DnsLinksOf(ix, e));
  }

  lemma LinkPartsInOrder(ix: EvidenceIndex, names: seq<string>)
    requires Wired(ix) && Wired(IxInOrder(ix))
    ensures CertificateRules.LinkParts(IxInOrder(ix), names) == PartsInOrder(CertificateRules.LinkParts(ix, names))
    ensures CertificateRules.Sampled(IxInOrder(ix), names) <==> CertificateRules.Sampled(ix, names)
  {
    forall n ensures CertificateRules.NameLinks(IxInOrder(ix), n) == AllInOrder(CertificateRules.NameLinks(ix, n))
                  && CertificateRules.Oversized(IxInOrder(ix), n) == CertificateRules.Oversized(ix, n)
    {
      NameLinksInOrder(ix, n);
    }
  }

  lemma NamesDraftAlike(ix: EvidenceIndex, names: seq<string>, total: nat)
    requires Wired(ix) && Wired(IxInOrder(ix)) && |names| <= total
    ensures DraftAlike(CertificateRules.NamesDraft(ix, names, total), CertificateRules.NamesDraft(IxInOrder(ix), names, total))
  {
    SameObservations(ix);
    LinkPartsInOrder(ix, names);
    FlattenInOrder(CertificateRules.LinkParts(ix, names));
    LinksAlike(CertificateRules.NamesDraft(ix, names, total), CertificateRules.NamesDraft(IxInOrder(ix), names, total));
  }

  lemma CtDraftAlike(ix: EvidenceIndex, target: string)
    requires Wired(ix) && Wired(IxInOrder(ix))
    ensures MaybeAlike(CertificateRules.CtDraft(ix, target), CertificateRules.CtDraft(IxInOrder(ix), target))
  {
    SharedNamesSame(ix, target);
    CertificateRules.SharedNameMembers(ix, target);
    NamesDraftAlike(ix, CertificateRules.SharedNames(ix, target), |CertificateRules.CtNames(Shared.Covering(ix), target)|);
  }

  lemma CertificatesAlike(ix: EvidenceIndex)
    requires Wired(ix) && Wired(IxInOrder(ix))
    ensures LogAlike(CertificateRules.Emitted(ix), CertificateRules.Emitted(IxInOrder(ix)))
  {
    match ix.target {
      case Domain(name) =>
        var t := IxInOrder(ix);
        DomainDraftAlike(ix, name);
        CtDraftAlike(ix, name);
        EmittingAlike(DomainCertificate, CertificateRules.DomainDraft(ix, name), CertificateRules.DomainDraft(t, name));
        EmittingAlike(CtDnsNames, CertificateRules.CtDraft(ix, name), CertificateRules.CtDraft(t, name));
        LogConcat(Emitting(DomainCertificate, CertificateRules.DomainDraft(ix, name)),
                  Emitting(CtDnsNames, CertificateRules.CtDraft(ix, name)),
                  Emitting(DomainCertificate, CertificateRules.DomainDraft(t, name)),
                  Emitting(CtDnsNames, CertificateRules.CtDraft(t, name)));
      case _ =>
    }
  }

  // --------------------------------------------------------------------- groups

  lemma SameEndSet(links: seq<Relationship>, atSource: bool)
    ensures Shared.EndSet(AllInOrder(links), atSource) == Shared.EndSet(links, atSource)
  {
    SameLinks(links);
    var ts := AllInOrder(links);
    forall e | e in Shared.EndSet(links, atSource) ensures e in Shared.EndSet(ts, atSource) {
      var l :| l in links && End(l, atSource) == e;
      assert InOrder(l) in ts && End(InOrder(l), atSource) == e;
    }
    forall e | e in Shared.EndSet(ts, atSource) ensures e in Shared.EndSet(links, atSource) {
      var t :| t in ts && End(t, atSource) == e;
      var l :| l in links && t == InOrder(l);
      assert End(l, atSource) == e;
    }
  }

  lemma EndingInOrder(links: seq<Relationship>, atSource: bool, e: Entity)
    ensures Shared.Ending(AllInOrder(links), atSource, e) == AllInOrder(Shared.Ending(links, atSource, e))
    ensures Shared.Members(AllInOrder(links), atSource, e) == Shared.Members(links, atSource, e)
  {
    FilterInOrder(links, (l: Relationship) => End(l, atSource) == e);
    SameEndSet(Shared.Ending(links, atSource, e), !atSource);
  }

  lemma GroupAlike(shared: Entity, members: set<Entity>, links: seq<Relationship>)
    ensures DraftAlike(Shared.GroupDraft(shared, members, links), Shared.GroupDraft(shared, members, AllInOrder(links)))
  {
    LinksAlike(Shared.GroupDraft(shared, members, links), Shared.GroupDraft(shared, members, AllInOrder(links)));
  }

  lemma GroupForAlike(links: seq<Relationship>, e: Entity)
    ensures LogAlike(Emitting(SharedInfrastructure, Shared.GroupFor(links, e)),
                     Emitting(SharedInfrastructure, Shared.GroupFor(AllInOrder(links), e)))
  {
    EndingInOrder(links, false, e);
    GroupAlike(e, Shared.Members(links, false, e), Shared.Ending(links, false, e));
    EmittingAlike(SharedInfrastructure, Shared.GroupFor(links, e), Shared.GroupFor(AllInOrder(links), e));
  }

  lemma TargetGroupsAlike(links: seq<Relationship>)
    ensures LogAlike(Shared.TargetGroups(links), Shared.TargetGroups(AllInOrder(links)))
  {
    var ts, shared := AllInOrder(links), Ascending(Shared.EndSet(links, false), EntityKey);
    SameEndSet(links, false);
    Shared.GroupsStaged(links, shared);
    Shared.GroupsStaged(ts, shared);
    PartsAlike(links, shared);
    StagesAlike(Shared.GroupStages(links, shared), Shared.GroupParts(links, shared),
                Shared.GroupStages(ts, shared), Shared.GroupParts(ts, shared), |shared|);
  }

  lemma PartsAlike(links: seq<Relationship>, shared: seq<Entity>)
    ensures var p, q := Shared.GroupParts(links, shared), Shared.GroupParts(AllInOrder(links), shared);
      |p| == |q| == |shared| && forall i :: 0 <= i < |p| ==> LogAlike(p[i], q[i])
  {
    forall e ensures LogAlike(Emitting(SharedInfrastructure, Shared.GroupFor(links, e)),
                              Emitting(SharedInfrastructure, Shared.GroupFor(AllInOrder(links), e)))
    {
      GroupForAlike(links, e);
    }
  }

  lemma {:induction false} SameSelection(links: seq<Relationship>, certs: seq<Entity>)
    ensures Shared.SelectSeveral(AllInOrder(links), certs) == Shared.SelectSeveral(links, certs)
  {
    if certs != [] {
      SameSelection(links, certs[1..]);
      EndingInOrder(links, true, certs[0]);
      SelectCons(links, certs);
      SelectCons(AllInOrder(links), certs);
    }
  }

  lemma SelectCons(links: seq<Relationship>, certs: seq<Entity>)
    requires certs != []
    ensures Shared.SelectSeveral(links, certs)
         == (if Shared.ListsSeveral(links, certs[0]) then [certs[0]] else []) + Shared.SelectSeveral(links, certs[1..])
  {
  }

  lemma {:induction false} SameInsert(x: Entity, s: seq<Entity>, a: Entity -> Key, b: Entity -> Key)
    requires forall e :: a(e) == b(e)
    ensures Insert(x, s, a) == Insert(x, s, b)
  {
    if s != [] { SameInsert(x, s[1..], a, b); }
  }

  lemma {:induction false} SameSort(s: seq<Entity>, a: Entity -> Key, b: Entity -> Key)
    requires forall e :: a(e) == b(e)
    ensures SortBy(s, a) == SortBy(s, b)
  {
    if s != [] {
      SameSort(s[1..], a, b);
      SameInsert(s[0], SortBy(s[1..], b), a, b);
    }
  }

  lemma SameRankOf(links: seq<Relationship>, ts: seq<Relationship>, e: Entity)
    requires Shared.Members(ts, true, e) == Shared.Members(links, true, e)
    ensures Shared.Rank(ts, e) == Shared.Rank(links, e)
  {
  }

  lemma RankAt(links: seq<Relationship>, e: Entity)
    ensures Shared.RankBy(links)(e) == Shared.Rank(links, e)
  {
  }

  lemma SameRank(links: seq<Relationship>, ts: seq<Relationship>)
    requires ts == AllInOrder(links)
    ensures forall e :: Shared.RankBy(ts)(e) == Shared.RankBy(links)(e)
  {
    forall e ensures Shared.RankBy(ts)(e) == Shared.RankBy(links)(e) {
      RankAt(links, e);
      RankAt(ts, e);
      EndingInOrder(links, true, e);
      SameRankOf(links, ts, e);
    }
  }

  lemma SameRanked(links: seq<Relationship>)
    ensures Shared.Ranked(AllInOrder(links)) == Shared.Ranked(links)
  {
    var ts, certs := AllInOrder(links), Ascending(Shared.EndSet(links, true), EntityKey);
    SameEndSet(links, true);
    SameRank(links, ts);
    SortsSame(links, ts, certs);
  }

  lemma SortsSame(links: seq<Relationship>, ts: seq<Relationship>, certs: seq<Entity>)
    requires ts == AllInOrder(links) && forall e :: Shared.RankBy(ts)(e) == Shared.RankBy(links)(e)
    ensures SortBy(Shared.SelectSeveral(ts, certs), Shared.RankBy(ts))
         == SortBy(Shared.SelectSeveral(links, certs), Shared.RankBy(links))
  {
    SameSelection(links, certs);
    SameSort(Shared.SelectSeveral(links, certs), Shared.RankBy(ts), Shared.RankBy(links));
  }

  lemma CertificateGroupsAlike(links: seq<Relationship>, certs: seq<Entity>)
    ensures LogAlike(Shared.CertificateGroups(links, certs), Shared.CertificateGroups(AllInOrder(links), certs))
  {
    forall e ensures EmissionAlike(Shared.CertificateGroup(links, e), Shared.CertificateGroup(AllInOrder(links), e)) {
      EndingInOrder(links, true, e);
      GroupAlike(e, Shared.Members(links, true, e), Shared.Ending(links, true, e));
    }
  }

  lemma KindAlike(ix: EvidenceIndex, kind: RelationKind)
    ensures LogAlike(Shared.TargetGroups(OfKind(ix, kind)), Shared.TargetGroups(OfKind(IxInOrder(ix), kind)))
  {
    OfKindInOrder(ix, kind);
    TargetGroupsAlike(OfKind(ix, kind));
  }

  lemma SharedAlike(ix: EvidenceIndex)
    ensures LogAlike(Shared.Emitted(ix), Shared.Emitted(IxInOrder(ix)))
    ensures Shared.Truncation(IxInOrder(ix)) == Shared.Truncation(ix)
  {
    var t, covering := IxInOrder(ix), Shared.Covering(ix);
    KindAlike(ix, AnnouncedBy);
    KindAlike(ix, RegisteredIn);
    KindAlike(ix, ResolvesTo);
    CoveringInOrder(ix);
    SameRanked(covering);
    CertificateGroupsAlike(covering, Shared.Kept(Shared.Ranked(covering)));
    FourAlike(Shared.TargetGroups(OfKind(ix, AnnouncedBy)), Shared.TargetGroups(OfKind(ix, RegisteredIn)),
              Shared.TargetGroups(OfKind(ix, ResolvesTo)),
              Shared.CertificateGroups(covering, Shared.Kept(Shared.Ranked(covering))),
              Shared.TargetGroups(OfKind(t, AnnouncedBy)), Shared.TargetGroups(OfKind(t, RegisteredIn)),
              Shared.TargetGroups(OfKind(t, ResolvesTo)),
              Shared.CertificateGroups(AllInOrder(covering), Shared.Kept(Shared.Ranked(covering))));
  }

  lemma FourAlike(a: seq<Emission>, b: seq<Emission>, c: seq<Emission>, d: seq<Emission>,
                  w: seq<Emission>, x: seq<Emission>, y: seq<Emission>, z: seq<Emission>)
    requires LogAlike(a, w) && LogAlike(b, x) && LogAlike(c, y) && LogAlike(d, z)
    ensures LogAlike(a + b + c + d, w + x + y + z)
  {
    LogConcat(a, b, w, x);
    LogConcat(a + b, c, w + x, y);
    LogConcat(a + b + c, d, w + x + y, z);
  }

  lemma EverythingAlike(ix: EvidenceIndex)
    requires Wired(ix) && Wired(IxInOrder(ix))
    ensures LogAlike(Correlate.AllEmitted(ix), Correlate.AllEmitted(IxInOrder(ix)))
  {
    var t := IxInOrder(ix);
    InfrastructureAlike(ix);
    CertificatesAlike(ix);
    ProvidersAlike(ix);
    SharedAlike(ix);
    FourAlike(Infrastructure.Emitted(ix), CertificateRules.Emitted(ix), Providers.Emitted(ix), Shared.Emitted(ix),
              Infrastructure.Emitted(t), CertificateRules.Emitted(t), Providers.Emitted(t), Shared.Emitted(t));
  }

  // ------------------------------------------------------------- correlations

  /** The same edges in the same order, each with the same evidence in any order. */
  ghost predicate LinksMatch(a: seq<Relationship>, b: seq<Relationship>)
  {
    |a| == |b| && forall i :: 0 <= i < |a| ==> LinkMatches(a[i], b[i])
  }

  ghost predicate LinkMatches(a: Relationship, b: Relationship)
  {
    b.edge == a.edge && forall id :: id in a.evidence <==> id in b.evidence
  }

  /** The same correlation, up to the order of evidence inside its links and the
      reporters its routing conflicts cite. */
  ghost predicate CorrelationAlike(c: Correlation, t: Correlation)
  {
    && t == c.(links := t.links, conflicts := t.conflicts)
    && LinksMatch(c.links, t.links) && ConflictsAlike(c.conflicts, t.conflicts)
  }

  ghost predicate AllAlike(cs: seq<Correlation>, ts: seq<Correlation>)
  {
    |ts| == |cs| && forall i :: 0 <= i < |cs| ==> CorrelationAlike(cs[i], ts[i])
  }

  ghost predicate ReportAlike(r: Correlate.Report, t: Correlate.Report)
  {
    AllAlike(r.correlations, t.correlations) && t.findings == r.findings && t.limitations == r.limitations
  }

  lemma SameEvidenceOf(d: Draft, t: Draft)
    requires forall id :: Cites(t, id) <==> Cites(d, id)
    ensures Evidence(t) == Evidence(d)
  {
    EvidenceMembers(d);
    EvidenceMembers(t);
    OnceEach(Evidence(d), Evidence(t));
    forall x: ObservationId, y: ObservationId | IdKey(x) == IdKey(y) ensures x == y { IdKeyInjective(x, y); }
    SortedUnique(Evidence(d), Evidence(t), IdKey);
  }

  lemma {:induction false} SameMissing(ix: EvidenceIndex, ids: seq<ObservationId>)
    ensures FirstMissing(IxInOrder(ix), ids) == FirstMissing(ix, ids)
  {
    if ids != [] { SameMissing(ix, ids[1..]); }
  }

  lemma TidyAlike(c: Conflict, t: Conflict)
    requires ConflictAlike(c, t)
    ensures ConflictAlike(Tidy(c), Tidy(t))
  {
    TidyEmpty(c);
    TidyEmpty(t);
  }

  lemma TidyEmpty(c: Conflict)
    ensures Tidy(c).evidence == [] <==> c.evidence == []
  {
    IdsApart(c.evidence);
    UniqueMeaning(c.evidence, IdKey);
    if c.evidence != [] { assert c.evidence[0] in Tidy(c).evidence; }
    if Tidy(c).evidence != [] { assert Tidy(c).evidence[0] in c.evidence; }
  }

  lemma CompletedAlike(d: Draft, t: Draft, kind: CorrelationKind, naming: Naming, subjects: seq<Entity>,
                       evidence: seq<ObservationId>, os: seq<Observation>)
    requires DraftAlike(d, t) && os != []
    ensures CorrelationAlike(Completed(d, kind, naming, subjects, evidence, os), Completed(t, kind, naming, subjects, evidence, os))
  {
    CanonicalInOrder(d.links);
    var links := Canonical(d.links);
    forall i | 0 <= i < |links| ensures LinkMatches(links[i], AllInOrder(links)[i]) { InOrderKeeps(links[i]); }
    forall i | 0 <= i < |d.conflicts| ensures ConflictAlike(Tidy(d.conflicts[i]), Tidy(t.conflicts[i])) {
      TidyAlike(d.conflicts[i], t.conflicts[i]);
    }
  }

  ghost predicate ResultAlike(a: Result<Correlation, CorrelationError>, b: Result<Correlation, CorrelationError>)
  {
    (a.Err? && b == a) || (a.Ok? && b.Ok? && CorrelationAlike(a.value, b.value))
  }

  lemma BuiltAlike(d: Draft, t: Draft, kind: CorrelationKind, ix: EvidenceIndex, naming: Naming)
    requires DraftAlike(d, t)
    ensures ResultAlike(Built(d, kind, ix, naming), Built(t, kind, IxInOrder(ix), naming))
  {
    SameEvidenceOf(d, t);
    SameMissing(ix, Evidence(d));
    FirstMissingMeaning(ix, Evidence(d));
    assert EmptyConflict(t) <==> EmptyConflict(d);
    var subjects := Unique(d.subjects, EntityKey);
    assert KnowsAll(IxInOrder(ix), subjects) <==> KnowsAll(ix, subjects);
    if Built(d, kind, ix, naming).Ok? {
      CompletedAlike(d, t, kind, naming, subjects, Evidence(d), Resolved(ix, Evidence(d)));
      assert Resolved(IxInOrder(ix), Evidence(d)) == Resolved(ix, Evidence(d));
    }
  }

  lemma {:induction false} BuiltFromAlike(log: seq<Emission>, other: seq<Emission>, ix: EvidenceIndex, naming: Naming)
    requires LogAlike(log, other)
    ensures AllAlike(BuiltFrom(log, ix, naming), BuiltFrom(other, IxInOrder(ix), naming))
    ensures RejectedFrom(other, IxInOrder(ix), naming) == RejectedFrom(log, ix, naming)
  {
    if log != [] {
      var n := |log| - 1;
      BuiltFromAlike(log[..n], other[..n], ix, naming);
      BuiltAlike(log[n].draft, other[n].draft, log[n].kind, ix, naming);
    }
  }

  lemma AlikeKeys(c: Correlation, t: Correlation)
    requires CorrelationAlike(c, t)
    ensures Correlate.CorrelationKey(t) == Correlate.CorrelationKey(c) && Correlate.IdOf(t) == Correlate.IdOf(c)
    ensures FindingOf(t) == FindingOf(c)
  {
  }

  lemma {:induction false} InsertAlike(c: Correlation, cs: seq<Correlation>, t: Correlation, ts: seq<Correlation>)
    requires CorrelationAlike(c, t) && AllAlike(cs, ts)
    ensures AllAlike(Insert(c, cs, Correlate.CorrelationKey), Insert(t, ts, Correlate.CorrelationKey))
  {
    AlikeKeys(c, t);
    if cs != [] {
      AlikeKeys(cs[0], ts[0]);
      InsertAlike(c, cs[1..], t, ts[1..]);
    }
  }

  lemma {:induction false} SortAlike(cs: seq<Correlation>, ts: seq<Correlation>)
    requires AllAlike(cs, ts)
    ensures AllAlike(SortBy(cs, Correlate.CorrelationKey), SortBy(ts, Correlate.CorrelationKey))
  {
    if cs != [] {
      SortAlike(cs[1..], ts[1..]);
      InsertAlike(cs[0], SortBy(cs[1..], Correlate.CorrelationKey), ts[0], SortBy(ts[1..], Correlate.CorrelationKey));
    }
  }

  lemma {:induction false} DedupAlike(cs: seq<Correlation>, ts: seq<Correlation>)
    requires AllAlike(cs, ts)
    ensures AllAlike(DedupBy(cs, Correlate.IdOf), DedupBy(ts, Correlate.IdOf))
  {
    var n := |cs|;
    if n >= 2 {
      AlikeKeys(cs[n - 1], ts[n - 1]);
      AlikeKeys(cs[n - 2], ts[n - 2]);
      DedupAlike(cs[..n - 1], ts[..n - 1]);
    }
  }

  lemma ArrangedAlike(cs: seq<Correlation>, ts: seq<Correlation>)
    requires AllAlike(cs, ts)
    ensures AllAlike(Correlate.Arranged(cs), Correlate.Arranged(ts))
  {
    SortAlike(cs, ts);
    DedupAlike(SortBy(cs, Correlate.CorrelationKey), SortBy(ts, Correlate.CorrelationKey));
  }

  lemma FindingsSame(cs: seq<Correlation>, ts: seq<Correlation>)
    requires AllAlike(cs, ts)
    ensures Correlate.FindingsOf(ts) == Correlate.FindingsOf(cs)
  {
    forall i | 0 <= i < |cs| ensures FindingOf(ts[i]) == FindingOf(cs[i]) { AlikeKeys(cs[i], ts[i]); }
  }

  /** Putting the evidence of every edge in order changes nothing else in the
      report. */
  lemma InOrderAlike(s: Store, naming: Naming)
    ensures ReportAlike(Correlate.ReportOf(s, naming), Correlate.ReportOf(StoreInOrder(s), naming))
  {
    var ix := IndexOf(s);
    IndexInOrder(s);
    WiredInOrder(ix);
    EverythingAlike(ix);
    SharedAlike(ix);
    FromLogs(Correlate.AllEmitted(ix), Correlate.AllEmitted(IxInOrder(ix)), ix, naming, Shared.Truncation(ix));
  }

  lemma FromLogs(log: seq<Emission>, other: seq<Emission>, ix: EvidenceIndex, naming: Naming, truncated: Option<nat>)
    requires LogAlike(log, other)
    ensures ReportAlike(Correlate.Assembled(log, ix, naming, truncated),
                        Correlate.Assembled(other, IxInOrder(ix), naming, truncated))
  {
    BuiltFromAlike(log, other, ix, naming);
    ArrangedAlike(BuiltFrom(log, ix, naming), BuiltFrom(other, IxInOrder(ix), naming));
    FindingsSame(Correlate.Arranged(BuiltFrom(log, ix, naming)),
                 Correlate.Arranged(BuiltFrom(other, IxInOrder(ix), naming)));
  }

  // ------------------------------------------------------------------- the result

  /** The same evidence: observations with unique identifiers in any order, and the
      same edges with the same evidence in any order. */
  ghost predicate SameFacts(s: Store, t: Store)
  {
    && s.target == t.target && s.sources == t.sources
    && UniqueIds(s.observations) && UniqueIds(t.observations) && multiset(s.observations) == multiset(t.observations)
    && EdgesApart(s.relationships) && EdgesApart(t.relationships)
    && EdgeMap(s.relationships) == EdgeMap(t.relationships)
  }

  lemma EvidenceOfEdge(rels: seq<Relationship>, r: Relationship)
    requires EdgesApart(rels) && r in rels
    ensures r.edge in EdgeMap(rels) && forall id :: id in EdgeMap(rels)[r.edge] <==> id in r.evidence
  {
    var i :| 0 <= i < |rels| && rels[i] == r;
    assert rels[i].edge == r.edge;
    forall q | q in rels && q.edge == r.edge ensures q == r {
      var j :| 0 <= j < |rels| && rels[j] == q;
      assert i == j;
    }
  }

  lemma SameInOrder(a: Relationship, b: Relationship)
    requires LinkMatches(a, b)
    ensures InOrder(a) == InOrder(b)
  {
    InOrderKeeps(a);
    InOrderKeeps(b);
    IdsApart(a.evidence);
    IdsApart(b.evidence);
    UniqueMeaning(a.evidence, IdKey);
    UniqueMeaning(b.evidence, IdKey);
    OnceEach(InOrder(a).evidence, InOrder(b).evidence);
    forall x: ObservationId, y: ObservationId | IdKey(x) == IdKey(y) ensures x == y { IdKeyInjective(x, y); }
    SortedUnique(InOrder(a).evidence, InOrder(b).evidence, IdKey);
  }

  /** Each relationship of one is, its evidence in order, one of the other. */
  lemma InOrderWithin(s: Store, t: Store)
    requires SameFacts(s, t)
    ensures forall r :: r in AllInOrder(s.relationships) ==> r in AllInOrder(t.relationships)
  {
    SameLinks(s.relationships);
    SameLinks(t.relationships);
    forall r | r in AllInOrder(s.relationships) ensures r in AllInOrder(t.relationships) {
      var a :| a in s.relationships && r == InOrder(a);
      EvidenceOfEdge(s.relationships, a);
      EdgePresent(t.relationships, a.edge);
      var b :| b in t.relationships && b.edge == a.edge;
      EvidenceOfEdge(t.relationships, b);
      SameInOrder(a, b);
    }
  }

  lemma ApartInOrder(rels: seq<Relationship>)
    requires EdgesApart(rels)
    ensures EdgesApart(AllInOrder(rels)) && NoDuplicates(AllInOrder(rels))
  {
    var ts := AllInOrder(rels);
    forall i, j | 0 <= i < j < |ts| ensures ts[i].edge != ts[j].edge {
      assert ts[i].edge == rels[i].edge && ts[j].edge == rels[j].edge;
    }
  }

  lemma InOrderSame(s: Store, t: Store)
    requires SameFacts(s, t)
    ensures SameEvidence(StoreInOrder(s), StoreInOrder(t))
  {
    ApartInOrder(s.relationships);
    ApartInOrder(t.relationships);
    InOrderWithin(s, t);
    InOrderWithin(t, s);
    OnceEach(AllInOrder(s.relationships), AllInOrder(t.relationships));
  }

  lemma AlikeBoth(r: Correlate.Report, m: Correlate.Report, t: Correlate.Report)
    requires ReportAlike(r, m) && ReportAlike(t, m)
    ensures ReportAlike(r, t)
  {
    forall i | 0 <= i < |r.correlations| ensures CorrelationAlike(r.correlations[i], t.correlations[i]) {
      assert CorrelationAlike(r.correlations[i], m.correlations[i]) && CorrelationAlike(t.correlations[i], m.correlations[i]);
      OneBoth(r.correlations[i], m.correlations[i], t.correlations[i]);
    }
  }

  lemma OneBoth(c: Correlation, m: Correlation, t: Correlation)
    requires CorrelationAlike(c, m) && CorrelationAlike(t, m)
    ensures CorrelationAlike(c, t)
  {
    forall i | 0 <= i < |c.links| ensures LinkMatches(c.links[i], t.links[i]) {
      assert LinkMatches(c.links[i], m.links[i]) && LinkMatches(t.links[i], m.links[i]);
    }
    forall i | 0 <= i < |c.conflicts| ensures ConflictAlike(c.conflicts[i], t.conflicts[i]) {
      assert ConflictAlike(c.conflicts[i], m.conflicts[i]) && ConflictAlike(t.conflicts[i], m.conflicts[i]);
    }
  }

  /** Investigations with the same evidence have the same report but for two
      things: the order in which a link lists its evidence, and which reporters a
      routing conflict cites for the registered networks. The correlations, their
      identifiers, kinds, subjects, claims, evidence, windows, confidence, gaps and
      limitations, all other conflicts, the findings and the caveats are equal. */
  lemma OrderOfEvidenceForgotten(s: Store, t: Store, naming: Naming)
    requires SameFacts(s, t)
    ensures ReportAlike(Correlate.ReportOf(s, naming), Correlate.ReportOf(t, naming))
  {
    InOrderAlike(s, naming);
    InOrderAlike(t, naming);
    InOrderSame(s, t);
    Correlate.OrderForgotten(StoreInOrder(s), StoreInOrder(t), naming);
    AlikeBoth(Correlate.ReportOf(s, naming), Correlate.ReportOf(StoreInOrder(s), naming), Correlate.ReportOf(t, naming));
  }
}
