/** How the correlation pass arranges the evidence of an investigation
    (crates/correlation/src/index.rs): a specification of every table, and the
    loops that fill them, each equal to its specification. */
module Index {
  import opened Results
  import opened Ordering
  import opened Model
  import opened Investigation

  datatype EvidenceIndex = EvidenceIndex(
    target: Indicator, sources: seq<SourceStatus>,
    byId: map<ObservationId, Observation>, duplicateIds: nat,
    relationships: seq<Relationship>,
    byKindSource: map<(RelationKind, Entity), seq<nat>>,
    byKindTarget: map<(RelationKind, Entity), seq<nat>>,
    byIndicator: map<Indicator, seq<Observation>>,
    entities: set<Entity>, indicators: set<Indicator>)

  // ------------------------------------------------------------ observations

  predicate HasId(os: seq<Observation>, id: ObservationId)
  {
    exists i :: 0 <= i < |os| && os[i].id == id
  }

  /** The first observation with each identifier, in order. */
  function Firsts(os: seq<Observation>): (r: seq<Observation>)
    ensures |r| <= |os|
  {
    if os == [] then []
    else
      var init := os[..|os| - 1];
      Firsts(init) + (if HasId(init, os[|os| - 1].id) then [] else [os[|os| - 1]])
  }

  function About(os: seq<Observation>, indicator: Indicator): (r: seq<Observation>)
  {
    Filter(os, (o: Observation) => o.indicator == indicator)
  }

  ghost function ById(os: seq<Observation>): (m: map<ObservationId, Observation>)
  {
    map id | id in (set i | 0 <= i < |os| :: os[i].id) :: Found(os, id)
  }

  function Found(os: seq<Observation>, id: ObservationId): (r: Observation)
    requires HasId(os, id)
  {
    FindObservationMeaning(os, id);
    FindObservation(os, id).value
  }

  ghost function Subjects(os: seq<Observation>): (r: set<Indicator>)
  {
    set i | 0 <= i < |os| :: os[i].indicator
  }

  /** Grouped by indicator, not yet sorted. */
  ghost function Grouped(os: seq<Observation>): (m: map<Indicator, seq<Observation>>)
  {
    map ind | ind in Subjects(os) :: About(os, ind)
  }

  ghost function ByIndicator(os: seq<Observation>): (m: map<Indicator, seq<Observation>>)
  {
    SortGroups(Grouped(os))
  }

  // ----------------------------------------------------------- relationships

  function EdgeOf(r: Relationship): (e: Edge) { r.edge }

  /** One relationship an edge, in the order of kind, source and target. */
  function Canonical(rels: seq<Relationship>): (r: seq<Relationship>)
  {
    DedupBy(SortBy(rels, RelationshipKey), EdgeOf)
  }

  /** Positions below `n` of the relationships with this kind and end. */
  function Positions(rels: seq<Relationship>, kind: RelationKind, entity: Entity, atSource: bool, n: nat): (r: seq<nat>)
    requires n <= |rels|
    ensures forall p :: 0 <= p < |r| ==> r[p] < n
  {
    if n == 0 then []
    else
      Positions(rels, kind, entity, atSource, n - 1)
      + (if rels[n - 1].edge.kind == kind && End(rels[n - 1], atSource) == entity then [n - 1] else [])
  }

  function End(r: Relationship, atSource: bool): (e: Entity)
  {
    if atSource then r.edge.source else r.edge.target
  }

  ghost function Ends(rels: seq<Relationship>, atSource: bool, n: nat): (r: set<(RelationKind, Entity)>)
    requires n <= |rels|
  {
    set i | 0 <= i < n :: (rels[i].edge.kind, End(rels[i], atSource))
  }

  ghost function PositionMap(rels: seq<Relationship>, atSource: bool, n: nat): (m: map<(RelationKind, Entity), seq<nat>>)
    requires n <= |rels|
  {
    map k | k in Ends(rels, atSource, n) :: Positions(rels, k.0, k.1, atSource, n)
  }

  ghost function EntitiesOf(rels: seq<Relationship>, n: nat): (r: set<Entity>)
    requires n <= |rels|
  {
    (set i | 0 <= i < n :: rels[i].edge.source) + (set i | 0 <= i < n :: rels[i].edge.target)
  }

  /** The index of an investigation. */
  ghost function IndexOf(s: Store): (ix: EvidenceIndex)
  {
    var firsts, rels := Firsts(s.observations), Canonical(s.relationships);
    EvidenceIndex(s.target, s.sources, ById(s.observations), |s.observations| - |Firsts(s.observations)|,
                  rels, PositionMap(rels, true, |rels|), PositionMap(rels, false, |rels|),
                  ByIndicator(firsts), EntitiesOf(rels, |rels|), Subjects(firsts) + {s.target})
  }

  // ---------------------------------------------------------------- building

  lemma {:induction false} FirstsMeaning(os: seq<Observation>)
    ensures forall id :: HasId(Firsts(os), id) <==> HasId(os, id)
    ensures forall i, j :: 0 <= i < j < |Firsts(os)| ==> Firsts(os)[i].id != Firsts(os)[j].id
  {
    if os != [] {
      var init, x := os[..|os| - 1], os[|os| - 1];
      FirstsMeaning(init);
      assert os == init + [x];
      forall id ensures HasId(os, id) <==> HasId(init, id) || id == x.id {
        HasIdSnoc(init, x, id);
      }
      if !HasId(init, x.id) {
        forall id ensures HasId(Firsts(os), id) <==> HasId(Firsts(init), id) || id == x.id {
          HasIdSnoc(Firsts(init), x, id);
        }
        assert !HasId(Firsts(init), x.id);
      } else {
        assert Firsts(os) == Firsts(init);
      }
    }
  }

  lemma HasIdSnoc(os: seq<Observation>, x: Observation, id: ObservationId)
    ensures HasId(os + [x], id) <==> HasId(os, id) || id == x.id
  {
    var t := os + [x];
    assert t[|os|] == x;
    if HasId(os, id) {
      var i :| 0 <= i < |os| && os[i].id == id;
      assert t[i].id == id;
    }
  }

  lemma {:induction false} FindSnoc(os: seq<Observation>, x: Observation, id: ObservationId)
    ensures FindObservation(os + [x], id)
         == if HasId(os, id) then FindObservation(os, id) else if x.id == id then Some(x) else None
  {
    if os == [] {
    } else {
      assert (os + [x])[1..] == os[1..] + [x];
      FindSnoc(os[1..], x, id);
      if HasId(os, id) && os[0].id != id {
        var i :| 0 <= i < |os| && os[i].id == id;
        assert os[1..][i - 1].id == id;
      }
      if HasId(os[1..], id) {
        var i :| 0 <= i < |os[1..]| && os[1..][i].id == id;
        assert os[i + 1].id == id;
      }
    }
  }

  lemma ByIdStep(os: seq<Observation>, x: Observation)
    ensures ById(os + [x]) == if HasId(os, x.id) then ById(os) else ById(os)[x.id := x]
  {
    var next := ById(os + [x]);
    forall id ensures id in next <==> HasId(os, id) || id == x.id {
      HasIdSnoc(os, x, id);
      assert id in next <==> HasId(os + [x], id);
    }
    forall id | id in next
      ensures next[id] == if HasId(os, id) then Found(os, id) else x
    {
      FindSnoc(os, x, id);
    }
    assert forall id :: id in ById(os) <==> HasId(os, id);
  }

  function AddedTo(m: map<Indicator, seq<Observation>>, x: Observation): (r: map<Indicator, seq<Observation>>)
  {
    m[x.indicator := (if x.indicator in m then m[x.indicator] else []) + [x]]
  }

  lemma GroupedStep(os: seq<Observation>, x: Observation)
    ensures Grouped(os + [x]) == AddedTo(Grouped(os), x)
  {
    var next := Grouped(os + [x]);
    SubjectsSnoc(os, x);
    forall ind
      ensures About(os + [x], ind) == About(os, ind) + (if ind == x.indicator then [x] else [])
    {
      FilterConcat(os, [x], (o: Observation) => o.indicator == ind);
      assert Filter([x][1..], (o: Observation) => o.indicator == ind) == [];
    }
    forall ind | ind in next && ind != x.indicator ensures next[ind] == Grouped(os)[ind] {
      assert About(os, ind) + [] == About(os, ind);
    }
    if x.indicator !in Grouped(os) { NoneAbout(os, x.indicator); }
  }

  lemma SubjectsSnoc(os: seq<Observation>, x: Observation)
    ensures Subjects(os + [x]) == Subjects(os) + {x.indicator}
  {
    var t := os + [x];
    assert t[|os|] == x;
    forall ind | ind in Subjects(os) ensures ind in Subjects(t) {
      var i :| 0 <= i < |os| && os[i].indicator == ind;
      assert t[i].indicator == ind;
    }
  }

  lemma NoneAbout(os: seq<Observation>, ind: Indicator)
    requires ind !in Subjects(os)
    ensures About(os, ind) == []
  {
    forall o | o in os ensures o.indicator != ind {
      var i :| 0 <= i < |os| && os[i] == o;
      assert os[i].indicator in Subjects(os);
    }
    FilterNone(os, (o: Observation) => o.indicator == ind);
  }

  /** The state of the indexing loop after one more observation. */
  lemma ObservationStep(os: seq<Observation>, i: nat)
    requires i < |os|
    ensures var known := HasId(os[..i], os[i].id);
      && (os[i].id in ById(os[..i]) <==> known)
      && ById(os[..i + 1]) == (if known then ById(os[..i]) else ById(os[..i])[os[i].id := os[i]])
      && Firsts(os[..i + 1]) == (if known then Firsts(os[..i]) else Firsts(os[..i]) + [os[i]])
  {
    assert os[..i + 1] == os[..i] + [os[i]] && os[..i + 1][..i] == os[..i];
    ByIdStep(os[..i], os[i]);
  }

  function SortGroups(m: map<Indicator, seq<Observation>>): (r: map<Indicator, seq<Observation>>)
  {
    map ind | ind in m :: SortBy(m[ind], ObservationKey)
  }

  /** Indexes the observations: the first with an identifier is kept, later reuses
      are counted, and each indicator's list is sorted. */
  method IndexObservations(os: seq<Observation>)
    returns (byId: map<ObservationId, Observation>, duplicates: nat, byIndicator: map<Indicator, seq<Observation>>)
    ensures byId == ById(os) && duplicates == |os| - |Firsts(os)| && byIndicator == ByIndicator(Firsts(os))
  {
    byId, duplicates, byIndicator := map[], 0, map[];
    for i := 0 to |os|
      invariant byId == ById(os[..i])
      invariant duplicates == i - |Firsts(os[..i])|
      invariant byIndicator == Grouped(Firsts(os[..i]))
    {
      var o := os[i];
      ObservationStep(os, i);
      if o.id in byId {
        duplicates := duplicates + 1;
        continue;
      }
      GroupedStep(Firsts(os[..i]), o);
      byId := byId[o.id := o];
      byIndicator := AddedTo(byIndicator, o);
    }
    assert os[..|os|] == os;
    byIndicator := SortGroups(byIndicator);
  }

  lemma PositionStep(rels: seq<Relationship>, atSource: bool, n: nat)
    requires n < |rels|
    ensures var k := (rels[n].edge.kind, End(rels[n], atSource));
      && PositionMap(rels, atSource, n + 1)
         == PositionMap(rels, atSource, n)[k := Positions(rels, k.0, k.1, atSource, n) + [n]]
      && (k !in PositionMap(rels, atSource, n) ==> Positions(rels, k.0, k.1, atSource, n) == [])
  {
    var k := (rels[n].edge.kind, End(rels[n], atSource));
    assert Ends(rels, atSource, n + 1) == Ends(rels, atSource, n) + {k};
    forall key | key in Ends(rels, atSource, n) && key != k
      ensures Positions(rels, key.0, key.1, atSource, n + 1) == Positions(rels, key.0, key.1, atSource, n)
    {
    }
    if k !in Ends(rels, atSource, n) { NoPositions(rels, k.0, k.1, atSource, n); }
  }

  lemma {:induction false} NoPositions(rels: seq<Relationship>, kind: RelationKind, entity: Entity, atSource: bool, n: nat)
    requires n <= |rels| && (kind, entity) !in Ends(rels, atSource, n)
    ensures Positions(rels, kind, entity, atSource, n) == []
  {
    if n > 0 {
      assert (rels[n - 1].edge.kind, End(rels[n - 1], atSource)) in Ends(rels, atSource, n);
      assert Ends(rels, atSource, n - 1) <= Ends(rels, atSource, n);
      NoPositions(rels, kind, entity, atSource, n - 1);
    }
  }

  function Appended(m: map<(RelationKind, Entity), seq<nat>>, k: (RelationKind, Entity), i: nat): (r: map<(RelationKind, Entity), seq<nat>>)
  {
    m[k := (if k in m then m[k] else []) + [i]]
  }

  lemma EntitiesStep(rels: seq<Relationship>, i: nat)
    requires i < |rels|
    ensures EntitiesOf(rels, i + 1) == EntitiesOf(rels, i) + {rels[i].edge.source, rels[i].edge.target}
  {
  }

  /** Indexes the ends of relationships. */
  method IndexRelationships(rels: seq<Relationship>)
    returns (byKindSource: map<(RelationKind, Entity), seq<nat>>, byKindTarget: map<(RelationKind, Entity), seq<nat>>,
             entities: set<Entity>)
    ensures byKindSource == PositionMap(rels, true, |rels|) && byKindTarget == PositionMap(rels, false, |rels|)
    ensures entities == EntitiesOf(rels, |rels|)
  {
    byKindSource, byKindTarget, entities := map[], map[], {};
    for i := 0 to |rels|
      invariant byKindSource == PositionMap(rels, true, i)
      invariant byKindTarget == PositionMap(rels, false, i)
      invariant entities == EntitiesOf(rels, i)
    {
      PositionStep(rels, true, i);
      PositionStep(rels, false, i);
      EntitiesStep(rels, i);
      byKindSource := Appended(byKindSource, (rels[i].edge.kind, rels[i].edge.source), i);
      byKindTarget := Appended(byKindTarget, (rels[i].edge.kind, rels[i].edge.target), i);
      entities := entities + {rels[i].edge.source, rels[i].edge.target};
    }
  }

  /** Builds the index of a finished investigation. */
  method NewIndex(a: Aggregate) returns (ix: EvidenceIndex)
    ensures ix == IndexOf(a.View())
  {
    var byId, duplicates, byIndicator := IndexObservations(a.observations);
    var rels := DedupBy(SortBy(a.relationships, RelationshipKey), EdgeOf);
    var byKindSource, byKindTarget, entities := IndexRelationships(rels);
    var indicators := byIndicator.Keys + {a.target};
    ix := EvidenceIndex(a.target, a.sources, byId, duplicates, rels, byKindSource, byKindTarget, byIndicator,
                        entities, indicators);
    assert byIndicator.Keys == Subjects(Firsts(a.observations));
  }

  // ----------------------------------------------------------------- lookups

  function ObservationOf(ix: EvidenceIndex, id: ObservationId): (r: Option<Observation>)
  {
    if id in ix.byId then Some(ix.byId[id]) else None
  }

  predicate KnowsEntity(ix: EvidenceIndex, e: Entity)
  {
    e in ix.entities || (e.IndicatorEntity? && e.indicator in ix.indicators)
  }

  /** The listed edges of this kind; they keep the order of the list. */
  function OfKind(ix: EvidenceIndex, kind: RelationKind): (r: seq<Relationship>)
  {
    Filter(ix.relationships, (r: Relationship) => r.edge.kind == kind)
  }

  /** Relationships at these positions. */
  function At(rels: seq<Relationship>, positions: seq<nat>): (r: seq<Relationship>)
    requires forall p :: 0 <= p < |positions| ==> positions[p] < |rels|
  {
    seq(|positions|, p requires 0 <= p < |positions| => rels[positions[p]])
  }

  function Lookup(ix: EvidenceIndex, m: map<(RelationKind, Entity), seq<nat>>, kind: RelationKind, e: Entity): (r: seq<Relationship>)
    requires PositionsValid(ix, m)
  {
    if (kind, e) in m then At(ix.relationships, m[(kind, e)]) else []
  }

  ghost predicate Wired(ix: EvidenceIndex)
  {
    && ix.byKindSource == PositionMap(ix.relationships, true, |ix.relationships|)
    && ix.byKindTarget == PositionMap(ix.relationships, false, |ix.relationships|)
  }

  predicate PositionsValid(ix: EvidenceIndex, m: map<(RelationKind, Entity), seq<nat>>)
  {
    forall k :: k in m ==> forall p :: 0 <= p < |m[k]| ==> m[k][p] < |ix.relationships|
  }

  function From(ix: EvidenceIndex, kind: RelationKind, e: Entity): (r: seq<Relationship>)
    requires Wired(ix)
  {
    Lookup(ix, ix.byKindSource, kind, e)
  }

  function To(ix: EvidenceIndex, kind: RelationKind, e: Entity): (r: seq<Relationship>)
    requires Wired(ix)
  {
    Lookup(ix, ix.byKindTarget, kind, e)
  }

  function ObservationsAbout(ix: EvidenceIndex, ind: Indicator): (r: seq<Observation>)
  {
    if ind in ix.byIndicator then ix.byIndicator[ind] else []
  }

  /** Source runs against `ind` that did not succeed, in recording order. */
  function UnsuccessfulSources(ix: EvidenceIndex, ind: Indicator): (r: seq<SourceStatus>)
  {
    Filter(ix.sources, (s: SourceStatus) => s.indicator == ind && !s.outcome.Succeeded?)
  }
}
