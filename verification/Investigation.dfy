/** The investigation aggregate (crates/core/src/investigation.rs and
    relationship.rs): a store that merges identical edges and accepts only
    relationships and findings whose evidence it holds. */
module Investigation {
  import opened Results
  import opened Ordering
  import opened Model

  datatype ModelError =
    | InvalidRelationship
    | MissingEvidence
    | UnknownObservation(id: ObservationId)
    | FinishedBeforeStart

  // ------------------------------------------------------- evidence vectors

  /** Pushes the identifiers that are not there yet, in order. */
  function Merged(existing: seq<ObservationId>, more: seq<ObservationId>): (r: seq<ObservationId>)
    decreases |more|
  {
    if more == [] then existing
    else Merged(if more[0] in existing then existing else existing + [more[0]], more[1..])
  }

  /** Merging keeps what was there as a prefix, adds exactly the new identifiers
      and introduces no duplicate. */
  lemma {:induction false} MergedMeaning(existing: seq<ObservationId>, more: seq<ObservationId>)
    ensures existing <= Merged(existing, more)
    ensures forall id :: id in Merged(existing, more) <==> id in existing || id in more
    ensures NoDuplicates(existing) ==> NoDuplicates(Merged(existing, more))
    decreases |more|
  {
    if more != [] {
      var next := if more[0] in existing then existing else existing + [more[0]];
      MergedMeaning(next, more[1..]);
      assert more == [more[0]] + more[1..];
    }
  }

  method MergeInto(existing: seq<ObservationId>, more: seq<ObservationId>) returns (r: seq<ObservationId>)
    ensures r == Merged(existing, more)
  {
    r := existing;
    for i := 0 to |more|
      invariant Merged(r, more[i..]) == Merged(existing, more)
    {
      if more[i] !in r { r := r + [more[i]]; }
    }
  }

  /** Creates a relationship: the entity types must suit the kind, duplicate
      evidence is dropped and there must be some. */
  method NewRelationship(source: Entity, kind: RelationKind, target: Entity, evidence: seq<ObservationId>)
    returns (r: Result<Relationship, ModelError>)
    ensures r.Err? <==> !Allows(kind, TypeOf(source), TypeOf(target)) || evidence == []
    ensures r == Err(InvalidRelationship) <==> !Allows(kind, TypeOf(source), TypeOf(target))
    ensures r.Ok? ==> r.value.edge == Edge(kind, source, target) && WellFormed(r.value) &&
                      forall id :: id in r.value.evidence <==> id in evidence
  {
    if !Allows(kind, TypeOf(source), TypeOf(target)) {
      return Err(InvalidRelationship);
    }
    var ids := MergeInto([], evidence);
    MergedMeaning([], evidence);
    assert forall i :: 0 <= i < |evidence| ==> evidence[i] in ids;
    if ids == [] {
      return Err(MissingEvidence);
    }
    r := Ok(Relationship(Edge(kind, source, target), ids));
  }

  /** What the relationship constructor guarantees. */
  ghost predicate WellFormed(r: Relationship)
  {
    && Allows(r.edge.kind, TypeOf(r.edge.source), TypeOf(r.edge.target))
    && r.evidence != [] && NoDuplicates(r.evidence)
  }

  // ------------------------------------------------------------------ store

  /** The value of an investigation. */
  datatype Store = Store(target: Indicator, startedAt: Timestamp, finishedAt: Option<Timestamp>,
                         observations: seq<Observation>, relationships: seq<Relationship>,
                         findings: seq<Finding>, sources: seq<SourceStatus>)

  ghost predicate Known(s: Store, id: ObservationId)
  {
    exists i :: 0 <= i < |s.observations| && s.observations[i].id == id
  }

  ghost predicate AllKnown(s: Store, ids: seq<ObservationId>)
  {
    forall id :: id in ids ==> Known(s, id)
  }

  /** The first observation with this identifier. */
  function FindObservation(observations: seq<Observation>, id: ObservationId): (r: Option<Observation>)
  {
    if observations == [] then None
    else if observations[0].id == id then Some(observations[0])
    else FindObservation(observations[1..], id)
  }

  lemma {:induction false} FindObservationMeaning(observations: seq<Observation>, id: ObservationId)
    ensures FindObservation(observations, id).None? <==>
              forall i :: 0 <= i < |observations| ==> observations[i].id != id
    ensures FindObservation(observations, id).Some? ==>
              exists i :: 0 <= i < |observations| && observations[i].id == id &&
                FindObservation(observations, id) == Some(observations[i]) &&
                forall j :: 0 <= j < i ==> observations[j].id != id
  {
    if observations != [] && observations[0].id != id {
      var rest := observations[1..];
      FindObservationMeaning(rest, id);
      if FindObservation(rest, id).Some? {
        var i :| 0 <= i < |rest| && rest[i].id == id && FindObservation(rest, id) == Some(rest[i]) &&
                 forall j :: 0 <= j < i ==> rest[j].id != id;
        assert observations[i + 1] == rest[i];
        forall j | 0 <= j < i + 1 ensures observations[j].id != id {
          if j > 0 { assert observations[j] == rest[j - 1]; }
        }
      } else {
        forall i | 0 <= i < |observations| ensures observations[i].id != id {
          if i > 0 { assert observations[i] == rest[i - 1]; }
        }
      }
    }
  }

  /** The first cited identifier the store does not hold. */
  function FirstUnknown(observations: seq<Observation>, ids: seq<ObservationId>): (r: Option<ObservationId>)
  {
    if ids == [] then None
    else if FindObservation(observations, ids[0]).None? then Some(ids[0])
    else FirstUnknown(observations, ids[1..])
  }

  lemma {:induction false} FirstUnknownMeaning(s: Store, ids: seq<ObservationId>)
    ensures FirstUnknown(s.observations, ids).None? <==> AllKnown(s, ids)
    ensures FirstUnknown(s.observations, ids).Some? ==>
              FirstUnknown(s.observations, ids).value in ids && !Known(s, FirstUnknown(s.observations, ids).value)
  {
    if ids != [] {
      FindObservationMeaning(s.observations, ids[0]);
      FirstUnknownMeaning(s, ids[1..]);
      assert ids == [ids[0]] + ids[1..];
      assert FindObservation(s.observations, ids[0]).None? <==> !Known(s, ids[0]);
      assert ids[0] in ids;
    }
  }

  /** Position of an edge. */
  function FindEdge(rels: seq<Relationship>, edge: Edge): (r: Option<nat>)
    ensures r.Some? ==> r.value < |rels| && rels[r.value].edge == edge
    ensures r.None? ==> forall i :: 0 <= i < |rels| ==> rels[i].edge != edge
  {
    if rels == [] then None
    else if rels[0].edge == edge then Some(0)
    else
      var rest := FindEdge(rels[1..], edge);
      assert forall i :: 0 < i < |rels| ==> rels[i] == rels[1..][i - 1];
      if rest.Some? then Some(rest.value + 1) else None
  }

  function Inserted(rels: seq<Relationship>, rel: Relationship): (r: seq<Relationship>)
  {
    match FindEdge(rels, rel.edge)
    case Some(i) => rels[i := rels[i].(evidence := Merged(rels[i].evidence, rel.evidence))]
    case None => rels + [rel]
  }

  function WithObservation(s: Store, o: Observation): (r: Store)
  {
    s.(observations := s.observations + [o])
  }

  /** The accepted relationship is merged into its edge; a rejected one changes
      nothing. */
  function WithRelationship(s: Store, rel: Relationship): (r: (Store, Result<(), ModelError>))
  {
    match FirstUnknown(s.observations, rel.evidence)
    case Some(id) => (s, Err(UnknownObservation(id)))
    case None => (s.(relationships := Inserted(s.relationships, rel)), Ok(()))
  }

  function WithFinding(s: Store, f: Finding): (r: (Store, Result<(), ModelError>))
  {
    match FirstUnknown(s.observations, f.evidence)
    case Some(id) => (s, Err(UnknownObservation(id)))
    case None => (s.(findings := s.findings + [f]), Ok(()))
  }

  function WithSource(s: Store, status: SourceStatus): (r: Store)
  {
    s.(sources := s.sources + [status])
  }

  function Finished(s: Store, at: Timestamp): (r: (Store, Result<(), ModelError>))
  {
    if at < s.startedAt then (s, Err(FinishedBeforeStart)) else (s.(finishedAt := Some(at)), Ok(()))
  }

  /** Each edge is stored once. */
  ghost predicate EdgesApart(rels: seq<Relationship>)
  {
    forall i, j :: 0 <= i < j < |rels| ==> rels[i].edge != rels[j].edge
  }

  /** The invariants of the aggregate: every relationship and finding cites only
      held observations, each edge is stored once with some duplicate-free
      evidence, and the end is not before the start. */
  ghost predicate Sound(s: Store)
  {
    && (forall i :: 0 <= i < |s.relationships| ==>
          WellFormed(s.relationships[i]) && AllKnown(s, s.relationships[i].evidence))
    && EdgesApart(s.relationships)
    && (forall i :: 0 <= i < |s.findings| ==> AllKnown(s, s.findings[i].evidence))
    && (s.finishedAt.Some? ==> s.startedAt <= s.finishedAt.value)
  }

  lemma AddObservationSound(s: Store, o: Observation)
    requires Sound(s)
    ensures Sound(WithObservation(s, o))
  {
    var r := WithObservation(s, o);
    forall id | Known(s, id) ensures Known(r, id) {
      var i :| 0 <= i < |s.observations| && s.observations[i].id == id;
      assert r.observations[i].id == id;
    }
  }

  lemma AddRelationshipSound(s: Store, rel: Relationship)
    requires Sound(s) && WellFormed(rel)
    ensures Sound(WithRelationship(s, rel).0)
    ensures WithRelationship(s, rel).1.Ok? <==> AllKnown(s, rel.evidence)
  {
    FirstUnknownMeaning(s, rel.evidence);
    if AllKnown(s, rel.evidence) {
      var r := WithRelationship(s, rel).0;
      assert r.observations == s.observations;
      assert forall id :: Known(s, id) ==> Known(r, id);
      match FindEdge(s.relationships, rel.edge) {
        case None =>
        case Some(i) => MergedMeaning(s.relationships[i].evidence, rel.evidence);
      }
    }
  }

  lemma AddFindingSound(s: Store, f: Finding)
    requires Sound(s)
    ensures Sound(WithFinding(s, f).0)
    ensures WithFinding(s, f).1.Ok? <==> AllKnown(s, f.evidence)
  {
    FirstUnknownMeaning(s, f.evidence);
    assert WithFinding(s, f).0.observations == s.observations;
    assert forall id :: Known(s, id) ==> Known(WithFinding(s, f).0, id);
  }

  // ------------------------------------------------------------- refinement

  ghost function IdSet(ids: seq<ObservationId>): (r: set<ObservationId>)
  {
    set id | id in ids
  }

  /** The abstract value: each edge with the set of its evidence. */
  ghost function EdgeMap(rels: seq<Relationship>): (m: map<Edge, set<ObservationId>>)
  {
    map e | e in (set i | 0 <= i < |rels| :: rels[i].edge) :: EvidenceFor(rels, e)
  }

  /** All evidence cited for an edge, wherever it stands. */
  ghost function EvidenceFor(rels: seq<Relationship>, e: Edge): (r: set<ObservationId>)
  {
    set rel, id | rel in rels && rel.edge == e && id in rel.evidence :: id
  }

  /** An accepted insertion adds the cited evidence to its edge and changes no
      other edge. */
  lemma InsertedRefines(rels: seq<Relationship>, rel: Relationship)
    requires EdgesApart(rels)
    ensures EdgeMap(Inserted(rels, rel)) == EdgeMap(rels)[rel.edge := EvidenceFor(rels, rel.edge) + IdSet(rel.evidence)]
  {
    var r := Inserted(rels, rel);
    InsertedEdges(rels, rel);
    forall e ensures EvidenceFor(r, e) == EvidenceFor(rels, e) + (if e == rel.edge then IdSet(rel.evidence) else {}) {
      InsertedEvidence(rels, rel, e);
    }
    var m := EdgeMap(rels)[rel.edge := EvidenceFor(rels, rel.edge) + IdSet(rel.evidence)];
    assert EdgeMap(r).Keys == m.Keys;
    forall e | e in m ensures EdgeMap(r)[e] == m[e] {
      assert e in EdgeMap(r);
    }
  }

  lemma InsertedEdges(rels: seq<Relationship>, rel: Relationship)
    ensures EdgeMap(Inserted(rels, rel)).Keys == EdgeMap(rels).Keys + {rel.edge}
  {
    var r := Inserted(rels, rel);
    forall e | e in EdgeMap(rels) ensures e in EdgeMap(r) {
      var i :| 0 <= i < |rels| && rels[i].edge == e;
      assert r[i].edge == e;
    }
    match FindEdge(rels, rel.edge) {
      case Some(i) => assert r[i].edge == rel.edge;
      case None => assert r[|rels|].edge == rel.edge;
    }
  }

  lemma InsertedEvidence(rels: seq<Relationship>, rel: Relationship, e: Edge)
    requires EdgesApart(rels)
    ensures EvidenceFor(Inserted(rels, rel), e)
         == EvidenceFor(rels, e) + (if e == rel.edge then IdSet(rel.evidence) else {})
  {
    var r := Inserted(rels, rel);
    match FindEdge(rels, rel.edge) {
      case None =>
        assert forall x :: x in r <==> x in rels || x == rel;
      case Some(i) =>
        MergedMeaning(rels[i].evidence, rel.evidence);
        var x := r[i];
        assert rels[i] in rels && x in r;
        forall y | y in rels && y != rels[i] ensures y in r {
          var j :| 0 <= j < |rels| && rels[j] == y;
          assert r[j] == y;
        }
        forall y | y in r && y != x ensures y in rels && y.edge != rel.edge {
          var j :| 0 <= j < |r| && r[j] == y;
          assert rels[j] == y;
        }
    }
  }

  /** Inserting accepted relationships one after another. */
  function InsertAll(rels: seq<Relationship>, more: seq<Relationship>): (r: seq<Relationship>)
    decreases |more|
  {
    if more == [] then rels else InsertAll(Inserted(rels, more[0]), more[1..])
  }

  lemma InsertedApart(rels: seq<Relationship>, rel: Relationship)
    requires EdgesApart(rels)
    ensures EdgesApart(Inserted(rels, rel))
  {
  }

  /** A whole series of insertions stores, for each edge, the union of all
      evidence given for it. */
  lemma {:induction false} InsertAllRefines(rels: seq<Relationship>, more: seq<Relationship>, e: Edge)
    requires EdgesApart(rels)
    ensures EdgesApart(InsertAll(rels, more))
    ensures EvidenceFor(InsertAll(rels, more), e) == EvidenceFor(rels, e) + EvidenceFor(more, e)
    ensures e in EdgeMap(InsertAll(rels, more)) <==> e in EdgeMap(rels) || e in EdgeMap(more)
    decreases |more|
  {
    if more != [] {
      InsertedApart(rels, more[0]);
      InsertAllRefines(Inserted(rels, more[0]), more[1..], e);
      InsertedEdges(rels, more[0]);
      InsertedEvidence(rels, more[0], e);
      EvidenceOfCons(more, e);
      EdgesOfCons(more, e);
    }
  }

  lemma EvidenceOfCons(more: seq<Relationship>, e: Edge)
    requires more != []
    ensures EvidenceFor(more, e)
         == EvidenceFor(more[1..], e) + (if e == more[0].edge then IdSet(more[0].evidence) else {})
  {
    assert more == [more[0]] + more[1..];
  }

  lemma EdgesOfCons(more: seq<Relationship>, e: Edge)
    requires more != []
    ensures e in EdgeMap(more) <==> e == more[0].edge || e in EdgeMap(more[1..])
  {
    var rest := more[1..];
    if e in EdgeMap(more) && e != more[0].edge {
      var i :| 0 <= i < |more| && more[i].edge == e;
      assert rest[i - 1].edge == e;
    }
    if e in EdgeMap(rest) {
      var i :| 0 <= i < |rest| && rest[i].edge == e;
      assert more[i + 1].edge == e;
    }
  }

  /** The same insertions in any order give the same edges with the same
      evidence sets. */
  lemma InsertionOrderForgotten(rels: seq<Relationship>, one: seq<Relationship>, other: seq<Relationship>)
    requires EdgesApart(rels) && multiset(one) == multiset(other)
    ensures EdgeMap(InsertAll(rels, one)) == EdgeMap(InsertAll(rels, other))
  {
    SameMembers(one, other);
    var m, n := EdgeMap(InsertAll(rels, one)), EdgeMap(InsertAll(rels, other));
    forall e
      ensures e in m <==> e in n
      ensures EvidenceFor(InsertAll(rels, one), e) == EvidenceFor(InsertAll(rels, other), e)
    {
      InsertAllRefines(rels, one, e);
      InsertAllRefines(rels, other, e);
      EdgePresent(one, e);
      EdgePresent(other, e);
    }
    assert m.Keys == n.Keys;
  }

  lemma EdgePresent(rels: seq<Relationship>, e: Edge)
    ensures e in EdgeMap(rels) <==> exists rel :: rel in rels && rel.edge == e
  {
    if rel :| rel in rels && rel.edge == e {
      var i :| 0 <= i < |rels| && rels[i] == rel;
      assert rels[i].edge == e;
    }
  }

  // -------------------------------------------------------------- aggregate

  class Aggregate {
    const target: Indicator
    const startedAt: Timestamp
    var finishedAt: Option<Timestamp>
    var observations: seq<Observation>
    var relationships: seq<Relationship>
    var findings: seq<Finding>
    var sources: seq<SourceStatus>

    ghost function View(): (s: Store)
      reads this
    {
      Store(target, startedAt, finishedAt, observations, relationships, findings, sources)
    }

    constructor (target: Indicator, startedAt: Timestamp)
      ensures View() == Store(target, startedAt, None, [], [], [], [])
      ensures Sound(View())
    {
      this.target := target;
      this.startedAt := startedAt;
      finishedAt, observations, relationships, findings, sources := None, [], [], [], [];
    }

    method AddObservation(o: Observation) returns (id: ObservationId)
      modifies this`observations
      ensures View() == WithObservation(old(View()), o) && id == o.id
    {
      observations := observations + [o];
      id := o.id;
    }

    /** Looks an observation up by identifier: the first one wins. */
    method Observation(id: ObservationId) returns (r: Option<Observation>)
      ensures r == FindObservation(observations, id)
    {
      r := None;
      for i := 0 to |observations|
        invariant FindObservation(observations[i..], id) == FindObservation(observations, id)
      {
        if observations[i].id == id { return Some(observations[i]); }
      }
    }

    method EnsureKnown(ids: seq<ObservationId>) returns (r: Result<(), ModelError>)
      ensures r == match FirstUnknown(observations, ids)
                   case Some(id) => Err(UnknownObservation(id))
                   case None => Ok(())
    {
      for i := 0 to |ids|
        invariant FirstUnknown(observations, ids[i..]) == FirstUnknown(observations, ids)
      {
        var found := Observation(ids[i]);
        if found.None? { return Err(UnknownObservation(ids[i])); }
      }
      r := Ok(());
    }

    method AddRelationship(rel: Relationship) returns (r: Result<(), ModelError>)
      modifies this`relationships
      ensures (View(), r) == WithRelationship(old(View()), rel)
    {
      r := EnsureKnown(rel.evidence);
      if r.Err? { return; }
      for i := 0 to |relationships|
        invariant relationships == old(relationships)
        invariant forall j :: 0 <= j < i ==> relationships[j].edge != rel.edge
      {
        if relationships[i].edge == rel.edge {
          FirstEdge(relationships, rel.edge, i);
          var evidence := MergeInto(relationships[i].evidence, rel.evidence);
          relationships := relationships[i := relationships[i].(evidence := evidence)];
          return;
        }
      }
      relationships := relationships + [rel];
    }

    method AddFinding(f: Finding) returns (r: Result<(), ModelError>)
      modifies this`findings
      ensures (View(), r) == WithFinding(old(View()), f)
    {
      r := EnsureKnown(f.evidence);
      if r.Ok? { findings := findings + [f]; }
    }

    method RecordSource(status: SourceStatus)
      modifies this`sources
      ensures View() == WithSource(old(View()), status)
    {
      sources := sources + [status];
    }

    method Finish(at: Timestamp) returns (r: Result<(), ModelError>)
      modifies this`finishedAt
      ensures (View(), r) == Finished(old(View()), at)
    {
      if at < startedAt { return Err(FinishedBeforeStart); }
      finishedAt := Some(at);
      r := Ok(());
    }
  }

  lemma {:induction false} FirstEdge(rels: seq<Relationship>, edge: Edge, i: nat)
    requires i < |rels| && rels[i].edge == edge
    requires forall j :: 0 <= j < i ==> rels[j].edge != edge
    ensures FindEdge(rels, edge) == Some(i)
    decreases i
  {
    if i > 0 {
      FirstEdge(rels[1..], edge, i - 1);
    }
  }

  /** Starts an investigation of an indicator that may be investigated. */
  method NewInvestigation(target: Indicator, startedAt: Timestamp, investigable: Indicator -> bool)
    returns (r: Result<Aggregate, ()>)
    ensures r.Ok? <==> investigable(target)
    ensures r.Ok? ==> fresh(r.value) && r.value.View() == Store(target, startedAt, None, [], [], [], [])
  {
    if !investigable(target) { return Err(()); }
    var a := new Aggregate(target, startedAt);
    r := Ok(a);
  }
}
