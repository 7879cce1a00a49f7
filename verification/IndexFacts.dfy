/** What the index of an investigation says: it is a canonical form of the
    evidence, its lookups are scans, and everything in it is grounded in the
    investigation. */
module IndexFacts {
  import opened Results
  import opened Ordering
  import opened Model
  import opened Investigation
  import opened Index

  // ----------------------------------------------------------- canonical form

  ghost predicate UniqueIds(os: seq<Observation>)
  {
    forall i, j :: 0 <= i < j < |os| ==> os[i].id != os[j].id
  }

  /** Two investigations with the same evidence in any order: observations with
      unique identifiers and relationships with unique edges are permutations of
      each other. */
  ghost predicate SameEvidence(s: Store, t: Store)
  {
    && s.target == t.target && s.sources == t.sources
    && UniqueIds(s.observations) && UniqueIds(t.observations)
    && multiset(s.observations) == multiset(t.observations)
    && EdgesApart(s.relationships) && multiset(s.relationships) == multiset(t.relationships)
  }

  lemma {:induction false} FirstsAll(os: seq<Observation>)
    requires UniqueIds(os)
    ensures Firsts(os) == os
  {
    if os != [] {
      FirstsAll(os[..|os| - 1]);
      assert os == os[..|os| - 1] + [os[|os| - 1]];
    }
  }

  lemma {:induction false} FindUnique(os: seq<Observation>, o: Observation)
    requires UniqueIds(os) && o in os
    ensures FindObservation(os, o.id) == Some(o)
  {
    if os[0].id == o.id {
      var i :| 0 <= i < |os| && os[i] == o;
      assert i == 0;
    } else {
      assert os == [os[0]] + os[1..];
      FindUnique(os[1..], o);
    }
  }

  lemma SameById(os: seq<Observation>, us: seq<Observation>)
    requires UniqueIds(os) && UniqueIds(us) && multiset(os) == multiset(us)
    ensures ById(os) == ById(us) && Subjects(os) == Subjects(us)
  {
    SameMembers(os, us);
    MapsInto(os, us);
    MapsInto(us, os);
    forall id | id in ById(os) ensures ById(os)[id] == ById(us)[id] {
      var i :| 0 <= i < |os| && os[i].id == id;
      FindUnique(os, os[i]);
      FindUnique(us, os[i]);
    }
  }

  lemma MapsInto(os: seq<Observation>, us: seq<Observation>)
    requires forall o :: o in os ==> o in us
    ensures ById(os).Keys <= ById(us).Keys && Subjects(os) <= Subjects(us)
  {
    forall id | id in ById(os) ensures id in ById(us) {
      var i :| 0 <= i < |os| && os[i].id == id;
      assert os[i] in us;
      var j :| 0 <= j < |us| && us[j] == os[i];
    }
    forall ind | ind in Subjects(os) ensures ind in Subjects(us) {
      var i :| 0 <= i < |os| && os[i].indicator == ind;
      assert os[i] in us;
      var j :| 0 <= j < |us| && us[j] == os[i];
      assert us[j].indicator == ind;
    }
  }

  lemma SameGroup(os: seq<Observation>, us: seq<Observation>, ind: Indicator)
    requires UniqueIds(os) && multiset(os) == multiset(us)
    ensures SortBy(About(os, ind), ObservationKey) == SortBy(About(us, ind), ObservationKey)
  {
    var p := (o: Observation) => o.indicator == ind;
    var a, b := About(os, ind), About(us, ind);
    forall o ensures multiset(a)[o] == multiset(b)[o] {
      FilterMultiset(os, p, o);
      FilterMultiset(us, p, o);
      assert multiset(Filter(os, p))[o] == multiset(Filter(us, p))[o];
      SamePredicate(os, p, ind);
      SamePredicate(us, p, ind);
    }
    forall x, y | x in a && y in a && ObservationKey(x) == ObservationKey(y) ensures x == y {
      ObservationKeyId(x, y);
      AboutMembers(os, ind);
      FindUnique(os, x);
      FindUnique(os, y);
    }
    SortCanonical(a, b, ObservationKey);
  }

  lemma {:induction false} SamePredicate(os: seq<Observation>, p: Observation -> bool, ind: Indicator)
    requires forall o :: p(o) == (o.indicator == ind)
    ensures Filter(os, p) == About(os, ind)
  {
    if os != [] {
      SamePredicate(os[1..], p, ind);
      assert About(os, ind) == (if os[0].indicator == ind then [os[0]] else []) + About(os[1..], ind);
    }
  }

  lemma AboutMembers(os: seq<Observation>, ind: Indicator)
    ensures forall o :: o in About(os, ind) <==> o in os && o.indicator == ind
  {
    FilterMembers(os, (o: Observation) => o.indicator == ind);
  }

  lemma SameCanonical(a: seq<Relationship>, b: seq<Relationship>)
    requires EdgesApart(a) && multiset(a) == multiset(b)
    ensures Canonical(a) == Canonical(b)
  {
    forall x, y | x in a && y in a && RelationshipKey(x) == RelationshipKey(y) ensures x == y {
      EdgeKeyInjective(x.edge, y.edge);
      var i :| 0 <= i < |a| && a[i] == x;
      var j :| 0 <= j < |a| && a[j] == y;
      assert i == j;
    }
    SortCanonical(a, b, RelationshipKey);
  }

  /** The index is a canonical form: investigations with the same evidence have
      the same index, whatever order it was inserted in. */
  lemma IndexIsCanonical(s: Store, t: Store)
    requires SameEvidence(s, t)
    ensures IndexOf(s) == IndexOf(t)
  {
    var os, us := s.observations, t.observations;
    FirstsAll(os);
    FirstsAll(us);
    SameMembers(os, us);
    SameById(os, us);
    SameCanonical(s.relationships, t.relationships);
    SameGroups(os, us);
  }

  lemma SameGroups(os: seq<Observation>, us: seq<Observation>)
    requires UniqueIds(os) && multiset(os) == multiset(us) && Subjects(os) == Subjects(us)
    ensures ByIndicator(os) == ByIndicator(us)
  {
    forall ind | ind in Subjects(os) ensures ByIndicator(os)[ind] == ByIndicator(us)[ind] {
      SameGroup(os, us, ind);
    }
  }

  // -------------------------------------------------------------------- scans

  lemma {:induction false} PositionsAreScan(rels: seq<Relationship>, kind: RelationKind, e: Entity, atSource: bool, n: nat)
    requires n <= |rels|
    ensures At(rels, Positions(rels, kind, e, atSource, n))
         == Filter(rels[..n], (r: Relationship) => r.edge.kind == kind && End(r, atSource) == e)
  {
    var p := (r: Relationship) => r.edge.kind == kind && End(r, atSource) == e;
    if n > 0 {
      PositionsAreScan(rels, kind, e, atSource, n - 1);
      var before := Positions(rels, kind, e, atSource, n - 1);
      assert rels[..n] == rels[..n - 1] + [rels[n - 1]];
      FilterConcat(rels[..n - 1], [rels[n - 1]], p);
      assert Filter([rels[n - 1]][1..], p) == [];
      if p(rels[n - 1]) {
        assert At(rels, before + [n - 1]) == At(rels, before) + [rels[n - 1]];
      } else {
        assert before + [] == before;
      }
    }
  }

  /** A lookup by kind and end is a scan of the canonical list. */
  lemma LookupsAreScans(s: Store, kind: RelationKind, e: Entity)
    ensures var ix := IndexOf(s);
      && Wired(ix)
      && From(ix, kind, e) == Filter(ix.relationships, (r: Relationship) => r.edge.kind == kind && r.edge.source == e)
      && To(ix, kind, e) == Filter(ix.relationships, (r: Relationship) => r.edge.kind == kind && r.edge.target == e)
  {
    var ix := IndexOf(s);
    WiredScan(ix, kind, e, true);
    WiredScan(ix, kind, e, false);
    SamePick(ix.relationships, kind, e);
  }

  lemma WiredScan(ix: EvidenceIndex, kind: RelationKind, e: Entity, atSource: bool)
    requires Wired(ix)
    ensures Lookup(ix, if atSource then ix.byKindSource else ix.byKindTarget, kind, e)
         == Filter(ix.relationships, (r: Relationship) => r.edge.kind == kind && End(r, atSource) == e)
  {
    var rels := ix.relationships;
    PositionsAreScan(rels, kind, e, atSource, |rels|);
    assert rels[..|rels|] == rels;
    if (kind, e) !in Ends(rels, atSource, |rels|) {
      NoPositions(rels, kind, e, atSource, |rels|);
    }
  }

  lemma {:induction false} SamePick(rels: seq<Relationship>, kind: RelationKind, e: Entity)
    ensures Filter(rels, (r: Relationship) => r.edge.kind == kind && End(r, true) == e)
         == Filter(rels, (r: Relationship) => r.edge.kind == kind && r.edge.source == e)
    ensures Filter(rels, (r: Relationship) => r.edge.kind == kind && End(r, false) == e)
         == Filter(rels, (r: Relationship) => r.edge.kind == kind && r.edge.target == e)
  {
    if rels != [] { SamePick(rels[1..], kind, e); }
  }

  /** What a lookup returns, by membership. */
  lemma LookupMembers(ix: EvidenceIndex, kind: RelationKind, e: Entity)
    requires Wired(ix)
    ensures forall r :: r in From(ix, kind, e) <==> r in ix.relationships && r.edge.kind == kind && r.edge.source == e
    ensures forall r :: r in To(ix, kind, e) <==> r in ix.relationships && r.edge.kind == kind && r.edge.target == e
  {
    WiredScan(ix, kind, e, true);
    WiredScan(ix, kind, e, false);
    FilterMembers(ix.relationships, (r: Relationship) => r.edge.kind == kind && End(r, true) == e);
    FilterMembers(ix.relationships, (r: Relationship) => r.edge.kind == kind && End(r, false) == e);
  }

  lemma OfKindMembers(ix: EvidenceIndex, kind: RelationKind)
    ensures forall r :: r in OfKind(ix, kind) <==> r in ix.relationships && r.edge.kind == kind
  {
    FilterMembers(ix.relationships, (r: Relationship) => r.edge.kind == kind);
  }

  /** Looking an observation up in the index is the investigation's own lookup:
      the first one with the identifier; and every observation is either kept or
      counted as a reuse. */
  lemma ObservationLookup(s: Store, id: ObservationId)
    ensures ObservationOf(IndexOf(s), id) == FindObservation(s.observations, id)
    ensures |IndexOf(s).byId| + IndexOf(s).duplicateIds == |s.observations|
  {
    FindObservationMeaning(s.observations, id);
    FirstsCount(s.observations);
  }

  lemma {:induction false} FirstsCount(os: seq<Observation>)
    ensures |ById(os)| == |Firsts(os)|
  {
    if os == [] {
      assert ById(os).Keys == {};
    } else {
      var init, x := os[..|os| - 1], os[|os| - 1];
      assert os == init + [x];
      FirstsCount(init);
      ByIdStep(init, x);
      assert x.id in ById(init) <==> HasId(init, x.id);
    }
  }

  /** The stored relationships and the canonical list have the same edges with the
      same evidence, each once, in the order of their keys. */
  lemma CanonicalList(s: Store)
    requires EdgesApart(s.relationships)
    ensures var rels := IndexOf(s).relationships;
      && Sorted(rels, RelationshipKey) && EdgesApart(rels)
      && multiset(rels) == multiset(s.relationships)
  {
    var sorted := SortBy(s.relationships, RelationshipKey);
    SortBySorts(s.relationships, RelationshipKey);
    ApartAnyOrder(s.relationships, sorted);
    DedupByIdentity(sorted, EdgeOf);
  }

  lemma ApartAnyOrder(a: seq<Relationship>, b: seq<Relationship>)
    requires EdgesApart(a) && multiset(a) == multiset(b)
    ensures MarkedApart(b, EdgeOf)
  {
    SameMembers(a, b);
    forall i, j | 0 <= i < j < |b| ensures EdgeOf(b[i]) != EdgeOf(b[j]) {
      if b[i].edge == b[j].edge {
        assert b[i] in a && b[j] in a;
        assert b[i] == b[j];
        CountTwice(b, i, j);
        assert forall m, n :: 0 <= m < n < |a| ==> a[m] != a[n];
        CountOnce(a, b[i]);
        assert false;
      }
    }
  }

  /** `knows_entity` holds exactly for relationship ends, subjects of indexed
      observations and the target. */
  lemma KnownEntities(s: Store, e: Entity)
    requires EdgesApart(s.relationships)
    ensures KnowsEntity(IndexOf(s), e) <==>
      || (exists r :: r in s.relationships && (r.edge.source == e || r.edge.target == e))
      || (exists o :: o in Firsts(s.observations) && e == IndicatorEntity(o.indicator))
      || e == IndicatorEntity(s.target)
  {
    var ix := IndexOf(s);
    CanonicalList(s);
    SameMembers(ix.relationships, s.relationships);
    EndsOfList(ix.relationships, e);
    SubjectsOfList(Firsts(s.observations), e);
  }

  /** Observations with the same identifier have the same subject: an identifier is
      drawn when an observation is made, and a copy keeps its subject. */
  ghost predicate SubjectsAgree(os: seq<Observation>)
  {
    forall a, b :: a in os && b in os && a.id == b.id ==> a.indicator == b.indicator
  }

  lemma {:induction false} FirstWithId(os: seq<Observation>, o: Observation)
    requires o in os
    ensures exists a :: a in Firsts(os) && a in os && a.id == o.id
  {
    var init, last := os[..|os| - 1], os[|os| - 1];
    assert os == init + [last];
    if o in init {
      FirstWithId(init, o);
    } else if HasId(init, o.id) {
      var i :| 0 <= i < |init| && init[i].id == o.id;
      FirstWithId(init, init[i]);
    }
  }

  /** Then the index knows the subject of every observation, also of those it does
      not keep. */
  lemma EverySubjectKnown(s: Store, o: Observation)
    requires EdgesApart(s.relationships) && SubjectsAgree(s.observations) && o in s.observations
    ensures KnowsEntity(IndexOf(s), IndicatorEntity(o.indicator))
  {
    FirstWithId(s.observations, o);
    KnownEntities(s, IndicatorEntity(o.indicator));
  }

  lemma EndsOfList(rels: seq<Relationship>, e: Entity)
    ensures e in EntitiesOf(rels, |rels|) <==> exists r :: r in rels && (r.edge.source == e || r.edge.target == e)
  {
    if r :| r in rels && (r.edge.source == e || r.edge.target == e) {
      var i :| 0 <= i < |rels| && rels[i] == r;
      assert rels[i].edge.source == e || rels[i].edge.target == e;
    }
  }

  lemma SubjectsOfList(os: seq<Observation>, e: Entity)
    ensures e.IndicatorEntity? && e.indicator in Subjects(os) <==>
              exists o :: o in os && e == IndicatorEntity(o.indicator)
  {
    if o :| o in os && e == IndicatorEntity(o.indicator) {
      var i :| 0 <= i < |os| && os[i] == o;
      assert os[i].indicator == e.indicator;
    }
    if e.IndicatorEntity? && e.indicator in Subjects(os) {
      var i :| 0 <= i < |os| && os[i].indicator == e.indicator;
      assert os[i] in os;
    }
  }

  // ----------------------------------------------------------------- grounding

  /** Everything in the index can be cited: links and their ends are known, and
      each listed observation is the one its identifier finds. */
  ghost predicate Grounded(ix: EvidenceIndex)
  {
    && Wired(ix)
    && (forall r :: r in ix.relationships ==> GroundedLink(ix, r))
    && (forall id :: id in ix.byId ==> ix.byId[id].id == id)
    && (forall ind, o :: ind in ix.byIndicator && o in ix.byIndicator[ind] ==>
          o.indicator == ind && o.id in ix.byId && ix.byId[o.id] == o)
    && ix.byIndicator.Keys <= ix.indicators && ix.target in ix.indicators
    && EdgesApart(ix.relationships)
  }

  ghost predicate GroundedLink(ix: EvidenceIndex, r: Relationship)
  {
    && r.evidence != [] && (forall id :: id in r.evidence ==> id in ix.byId)
    && r.edge.source in ix.entities && r.edge.target in ix.entities
    && Allows(r.edge.kind, TypeOf(r.edge.source), TypeOf(r.edge.target))
  }

  lemma LinkIsGrounded(s: Store, r: Relationship)
    requires Sound(s) && r in s.relationships && r in IndexOf(s).relationships
    ensures GroundedLink(IndexOf(s), r)
  {
    var ix := IndexOf(s);
    var i :| 0 <= i < |s.relationships| && s.relationships[i] == r;
    forall id | id in r.evidence ensures id in ix.byId {
      assert Known(s, id);
    }
    EndsOfList(ix.relationships, r.edge.source);
    EndsOfList(ix.relationships, r.edge.target);
  }

  lemma ObservationsGrounded(s: Store)
    ensures var ix := IndexOf(s);
      && (forall id :: id in ix.byId ==> ix.byId[id].id == id)
      && (forall ind, o :: ind in ix.byIndicator && o in ix.byIndicator[ind] ==>
            o.indicator == ind && o.id in ix.byId && ix.byId[o.id] == o)
      && ix.byIndicator.Keys <= ix.indicators && ix.target in ix.indicators
  {
    var ix := IndexOf(s);
    forall id | id in ix.byId ensures ix.byId[id].id == id {
      FindObservationMeaning(s.observations, id);
    }
    forall ind, o | ind in ix.byIndicator && o in ix.byIndicator[ind]
      ensures o.indicator == ind && o.id in ix.byId && ix.byId[o.id] == o
    {
      ListedObservation(s, ind, o);
    }
  }

  lemma LinksGrounded(s: Store)
    requires Sound(s)
    ensures EdgesApart(IndexOf(s).relationships)
    ensures forall r :: r in IndexOf(s).relationships ==> GroundedLink(IndexOf(s), r)
  {
    CanonicalList(s);
    SameMembers(IndexOf(s).relationships, s.relationships);
    forall r | r in IndexOf(s).relationships ensures GroundedLink(IndexOf(s), r) { LinkIsGrounded(s, r); }
  }

  /** The index of any sound investigation is grounded. */
  lemma IndexIsGrounded(s: Store)
    requires Sound(s)
    ensures Grounded(IndexOf(s))
  {
    ObservationsGrounded(s);
    LinksGrounded(s);
  }

  lemma ListedObservation(s: Store, ind: Indicator, o: Observation)
    requires ind in IndexOf(s).byIndicator && o in IndexOf(s).byIndicator[ind]
    ensures o.indicator == ind && HasId(s.observations, o.id) && Found(s.observations, o.id) == o
  {
    var firsts := Firsts(s.observations);
    SortBySorts(About(firsts, ind), ObservationKey);
    AboutMembers(firsts, ind);
    FirstIsFound(s.observations, o);
  }

  lemma {:induction false} FirstIsFound(os: seq<Observation>, o: Observation)
    requires o in Firsts(os)
    ensures HasId(os, o.id) && Found(os, o.id) == o
  {
    var init, x := os[..|os| - 1], os[|os| - 1];
    assert os == init + [x];
    HasIdSnoc(init, x, o.id);
    FindSnoc(init, x, o.id);
    if o in Firsts(init) {
      FirstIsFound(init, o);
    }
  }
}
