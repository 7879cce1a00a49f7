/** What a finished investigation holds: exactly what the collectors handed over and
    what cites evidence that was there by then, in the order their runs were
    joined. */
module EngineRecords {
  import opened Results
  import opened Model
  import opened Investigation
  import opened EngineSpec
  import opened EngineInvariants
  import opened EngineSteps
  import opened EngineTheorems
  import opened EngineReport

  // ------------------------------------------------------------ one collection

  /** All these identifiers are of observations in the list. */
  ghost predicate Holds(os: seq<Observation>, ids: seq<ObservationId>)
  {
    forall id :: id in ids ==> exists o :: o in os && o.id == id
  }

  lemma HoldsIsKnown(s: Store, ids: seq<ObservationId>)
    ensures Holds(s.observations, ids) <==> AllKnown(s, ids)
  {
    if Holds(s.observations, ids) {
      forall id | id in ids ensures Known(s, id) {
        var o :| o in s.observations && o.id == id;
        var i :| 0 <= i < |s.observations| && s.observations[i] == o;
        assert s.observations[i].id == id;
      }
    }
    if AllKnown(s, ids) {
      forall id | id in ids ensures exists o :: o in s.observations && o.id == id {
        assert Known(s, id);
        var i :| 0 <= i < |s.observations| && s.observations[i].id == id;
        assert s.observations[i] in s.observations;
      }
    }
  }

  /** The evidence these relationships give for an edge, as far as they cite only
      observations that are held. */
  ghost function Given(os: seq<Observation>, rels: seq<Relationship>, e: Edge): (r: set<ObservationId>)
  {
    set rel, id | rel in rels && rel.edge == e && Holds(os, rel.evidence) && id in rel.evidence :: id
  }

  /** The findings that cite only observations that are held, in order. */
  ghost function Grounded(os: seq<Observation>, fs: seq<Finding>): (r: seq<Finding>)
  {
    if fs == [] then [] else (if Holds(os, fs[0].evidence) then [fs[0]] else []) + Grounded(os, fs[1..])
  }

  /** An accepted relationship adds its evidence to its edge; one that cites what is
      not held adds nothing. Nothing else changes. */
  lemma RelationshipAdds(s: Store, rel: Relationship, e: Edge)
    requires EdgesApart(s.relationships)
    ensures var r := WithRelationship(s, rel).0;
      && r == s.(relationships := r.relationships) && EdgesApart(r.relationships)
      && EvidenceFor(r.relationships, e) == EvidenceFor(s.relationships, e) + Given(s.observations, [rel], e)
  {
    FirstUnknownMeaning(s, rel.evidence);
    HoldsIsKnown(s, rel.evidence);
    if AllKnown(s, rel.evidence) {
      InsertedApart(s.relationships, rel);
      InsertedEvidence(s.relationships, rel, e);
    }
    OneGiven(s.observations, rel, e);
  }

  lemma OneGiven(os: seq<Observation>, rel: Relationship, e: Edge)
    ensures Given(os, [rel], e) == if rel.edge == e && Holds(os, rel.evidence) then IdSet(rel.evidence) else {}
  {
  }

  lemma GivenCons(os: seq<Observation>, rels: seq<Relationship>, e: Edge)
    requires rels != []
    ensures Given(os, rels, e) == Given(os, [rels[0]], e) + Given(os, rels[1..], e)
  {
    assert forall x :: x in rels <==> x in [rels[0]] || x in rels[1..];
  }

  lemma {:induction false} RelationshipsAdd(s: Store, rels: seq<Relationship>, e: Edge)
    requires EdgesApart(s.relationships)
    ensures var r := AddRelationships(s, rels);
      && r == s.(relationships := r.relationships) && EdgesApart(r.relationships)
      && EvidenceFor(r.relationships, e) == EvidenceFor(s.relationships, e) + Given(s.observations, rels, e)
    decreases |rels|
  {
    if rels == [] {
      assert Given(s.observations, rels, e) == {};
    } else {
      RelationshipAdds(s, rels[0], e);
      RelationshipsAdd(WithRelationship(s, rels[0]).0, rels[1..], e);
      GivenCons(s.observations, rels, e);
    }
  }

  lemma {:induction false} FindingsAdd(s: Store, fs: seq<Finding>)
    ensures AddFindings(s, fs) == s.(findings := s.findings + Grounded(s.observations, fs))
    decreases |fs|
  {
    if fs != [] {
      FirstUnknownMeaning(s, fs[0].evidence);
      HoldsIsKnown(s, fs[0].evidence);
      FindingsAdd(WithFinding(s, fs[0]).0, fs[1..]);
    }
  }

  /** What a merge does, stated without its steps: the observations are appended;
      every edge gains the evidence of those relationships that cite only what is
      then held; the findings that do so are appended in order; nothing else
      changes. */
  lemma MergeRecords(s: Store, c: Collection, e: Edge)
    requires EdgesApart(s.relationships)
    ensures var r, os := MergeCollection(s, c), s.observations + c.observations;
      && r.observations == os && EdgesApart(r.relationships)
      && EvidenceFor(r.relationships, e) == EvidenceFor(s.relationships, e) + Given(os, c.relationships, e)
      && r.findings == s.findings + Grounded(os, c.findings)
      && r == s.(observations := r.observations, relationships := r.relationships, findings := r.findings)
  {
    var s1 := AddObservations(s, c.observations);
    RelationshipsAdd(s1, c.relationships, e);
    FindingsAdd(AddRelationships(s1, c.relationships), c.findings);
  }

  // ------------------------------------------------------------------- a whole run

  /** What one event hands over. */
  function HandedOver(event: Event): (r: seq<Collection>)
  {
    match event case Completed(_, Collected(c), _, _) => [c] case _ => []
  }

  /** What the collectors handed over, in the order their runs were joined. */
  function Handovers(events: seq<Event>): (r: seq<Collection>)
  {
    if events == [] then []
    else HandedOver(events[0]) + Handovers(events[1..])
  }

  /** The observations held after these collections. */
  function Observed(os: seq<Observation>, cs: seq<Collection>): (r: seq<Observation>)
    decreases |cs|
  {
    if cs == [] then os else Observed(os + cs[0].observations, cs[1..])
  }

  /** The evidence given for an edge, as far as the observations cited were held when
      it was given. */
  ghost function GivenBy(os: seq<Observation>, cs: seq<Collection>, e: Edge): (r: set<ObservationId>)
    decreases |cs|
  {
    if cs == [] then {}
    else
      var held := os + cs[0].observations;
      Given(held, cs[0].relationships, e) + GivenBy(held, cs[1..], e)
  }

  ghost function GroundedBy(os: seq<Observation>, cs: seq<Collection>): (r: seq<Finding>)
    decreases |cs|
  {
    if cs == [] then []
    else
      var held := os + cs[0].observations;
      Grounded(held, cs[0].findings) + GroundedBy(held, cs[1..])
  }

  /** The same store but for what it says about its sources. */
  ghost predicate SameRecords(s: Store, r: Store)
  {
    r == s.(sources := r.sources)
  }

  lemma {:induction false} ScheduleRecords(e: Setup, s: State, ind: Indicator, depth: U8, origin: Origin, k: nat)
    requires k <= |e.collectors|
    ensures SameRecords(s.store, Schedule(e, s, ind, depth, origin, k).store)
    decreases |e.collectors| - k
  {
    if k < |e.collectors| {
      OfferCases(e, s, ind, depth, origin, k);
      ScheduleRecords(e, Offer(e, s, e.collectors[k], ind, depth, origin), ind, depth, origin, k + 1);
    }
  }

  lemma {:induction false} FollowAllRecords(e: Setup, s: State, pivots: seq<Indicator>, depth: U8, i: nat)
    ensures SameRecords(s.store, FollowAll(e, s, pivots, depth, FromRun(i)).store)
    decreases |pivots|
  {
    if pivots != [] {
      if Enters(e, s, pivots[0], depth) { ScheduleRecords(e, Entered(s, pivots[0]), pivots[0], depth, FromRun(i), 0); }
      FollowAllRecords(e, Follow(e, s, pivots[0], depth, FromRun(i)), pivots[1..], depth, i);
    }
  }

  lemma {:induction false} DrainKeepsRecords(s: State, order: seq<nat>, now: Timestamp)
    ensures SameRecords(s.store, Drain(s, order, now).store)
    decreases |order|
  {
    if order != [] { DrainKeepsRecords(CutOff(s, order[0], now), order[1..], now); }
  }

  /** `r` holds these observations, and what `s` holds with this evidence for the edge
      and these findings added. */
  ghost predicate Gains(s: Store, r: Store, e: Edge, os: seq<Observation>, given: set<ObservationId>, fs: seq<Finding>)
  {
    && r.observations == os && EdgesApart(r.relationships)
    && EvidenceFor(r.relationships, e) == EvidenceFor(s.relationships, e) + given
    && r.findings == s.findings + fs
    && r.target == s.target && r.startedAt == s.startedAt && r.finishedAt == s.finishedAt
  }

  lemma GainsCompose(s: Store, t: Store, r: Store, e: Edge, os: seq<Observation>, given: set<ObservationId>, fs: seq<Finding>,
                     more: seq<Observation>, later: set<ObservationId>, gs: seq<Finding>)
    requires Gains(s, t, e, os, given, fs) && Gains(t, r, e, more, later, gs)
    ensures Gains(s, r, e, more, given + later, fs + gs)
  {
    assert s.findings + fs + gs == s.findings + (fs + gs);
  }

  /** `r` holds what `s` holds and what these collections add for this edge. */
  ghost predicate Records(s: Store, cs: seq<Collection>, r: Store, e: Edge)
  {
    Gains(s, r, e, Observed(s.observations, cs), GivenBy(s.observations, cs, e), GroundedBy(s.observations, cs))
  }

  lemma NothingRecorded(s: Store, r: Store, e: Edge)
    requires EdgesApart(s.relationships) && SameRecords(s, r)
    ensures Records(s, [], r, e)
  {
  }

  lemma OneRecorded(s: Store, c: Collection, r: Store, e: Edge)
    requires EdgesApart(s.relationships) && SameRecords(MergeCollection(s, c), r)
    ensures Records(s, [c], r, e)
  {
    MergeRecords(s, c, e);
    var os := s.observations + c.observations;
    assert [c][1..] == [];
    assert GivenBy(s.observations, [c], e) == Given(os, c.relationships, e) + {};
    assert GroundedBy(s.observations, [c]) == Grounded(os, c.findings) + [];
  }

  lemma StepRecords(e: Setup, s: State, event: Event, edge: Edge)
    requires EdgesApart(s.store.relationships) && Enabled(s, event)
    ensures Records(s.store, HandedOver(event), Step(e, s, event).store, edge)
  {
    match event
    case Completed(id, end, from, to) =>
      CompleteParts(e, s, id, end, from, to);
      if end.Collected? {
        var c := end.collection;
        FollowAllRecords(e, Handed(s, id, c), Examined(c.pivots), Deeper(s.pending[id].depth), id);
        OneRecorded(s.store, c, Step(e, s, event).store, edge);
      } else {
        NothingRecorded(s.store, Step(e, s, event).store, edge);
      }
    case Crashed(id) => NothingRecorded(s.store, Step(e, s, event).store, edge);
    case Deadline(order) =>
      DrainKeepsRecords(Struck(s), order, e.clock(s.ticks));
      NothingRecorded(s.store, Step(e, s, event).store, edge);
  }

  lemma OneMore(os: seq<Observation>, c: Collection, ds: seq<Collection>, e: Edge)
    ensures var held := os + c.observations;
      && Observed(os, [c]) == held && Observed(os, [c] + ds) == Observed(held, ds)
      && GivenBy(os, [c] + ds, e) == GivenBy(os, [c], e) + GivenBy(held, ds, e)
      && GroundedBy(os, [c] + ds) == GroundedBy(os, [c]) + GroundedBy(held, ds)
  {
    var held, all := os + c.observations, [c] + ds;
    assert all[0] == c && all[1..] == ds && [c][1..] == [];
    assert GivenBy(held, [], e) == {} && GroundedBy(held, []) == [];
    assert GroundedBy(os, [c]) == Grounded(held, c.findings) + [] == Grounded(held, c.findings);
  }

  lemma RecordsCompose(s: Store, c: Collection, t: Store, ds: seq<Collection>, r: Store, e: Edge)
    requires Records(s, [c], t, e) && Records(t, ds, r, e)
    ensures Records(s, [c] + ds, r, e)
  {
    var os, held := s.observations, s.observations + c.observations;
    OneMore(os, c, ds, e);
    GainsCompose(s, t, r, e, held, GivenBy(os, [c], e), GroundedBy(os, [c]),
                 Observed(held, ds), GivenBy(held, ds, e), GroundedBy(held, ds));
  }

  lemma RecordsContinue(s: Store, t: Store, ds: seq<Collection>, r: Store, e: Edge)
    requires Records(s, [], t, e) && Records(t, ds, r, e)
    ensures Records(s, ds, r, e)
  {
  }

  lemma {:induction false} PlayRecords(e: Setup, s: State, events: seq<Event>, edge: Edge)
    requires EdgesApart(s.store.relationships) && Possible(e, s, events)
    ensures Records(s.store, Handovers(events), Play(e, s, events).store, edge)
    decreases |events|
  {
    if events == [] {
      NothingRecorded(s.store, s.store, edge);
    } else {
      StepRecords(e, s, events[0], edge);
      PlayRecords(e, Step(e, s, events[0]), events[1..], edge);
      var next, rest, end := Step(e, s, events[0]).store, Handovers(events[1..]), Play(e, s, events).store;
      if HandedOver(events[0]) == [] {
        RecordsContinue(s.store, next, rest, end, edge);
        assert Handovers(events) == rest;
      } else {
        RecordsCompose(s.store, events[0].end.collection, next, rest, end, edge);
      }
    }
  }

  lemma BeginHoldsNothing(e: Setup, store: Store)
    requires Ready(e, store)
    ensures SameRecords(store, Begin(e, store).store)
  {
    ScheduleRecords(e, Blank(store), store.target, 0, FromTarget, 0);
  }

  lemma StoredOnce(s: Store, edge: Edge)
    requires Sound(s)
    ensures (exists rel :: rel in s.relationships && rel.edge == edge) <==> EvidenceFor(s.relationships, edge) != {}
  {
    if rel :| rel in s.relationships && rel.edge == edge {
      var i :| 0 <= i < |s.relationships| && s.relationships[i] == rel;
      assert rel.evidence[0] in rel.evidence;
      assert rel.evidence[0] in EvidenceFor(s.relationships, edge);
    }
  }

  /** A finished investigation holds the observations of all collections in the order
      of joins; an edge is stored exactly when some relationship gave it evidence that
      was held by then, with exactly the evidence so given; and its findings are those
      that cited only what was held by then, in order. */
  lemma HoldsWhatWasGiven(e: Setup, store: Store, events: seq<Event>, edge: Edge)
    requires Ended(e, store, events)
    ensures var r, cs := Report(e, store, events).store, Handovers(events);
      && r.observations == Observed([], cs)
      && EvidenceFor(r.relationships, edge) == GivenBy([], cs, edge)
      && ((exists rel :: rel in r.relationships && rel.edge == edge) <==> GivenBy([], cs, edge) != {})
      && r.findings == GroundedBy([], cs)
      && r.target == store.target && r.startedAt == store.startedAt
  {
    var s := Reached(e, store, events);
    BeginHoldsNothing(e, store);
    PlayRecords(e, Begin(e, store), events, edge);
    UnsupportedCounts(e, s.store, s.considered, Later(e.clock(s.ticks), s.store.startedAt), 0, "", store.target);
    assert EvidenceFor([], edge) == {};
    ObservationsConserved(e, store, events);
    StoredOnce(Report(e, store, events).store, edge);
  }
}
