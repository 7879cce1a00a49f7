/** Drafts and the correlations built from them
    (crates/correlation/src/model.rs). Texts are tags that carry what the text
    is about. */
module Drafts {
  import opened Results
  import opened Ordering
  import opened Net
  import opened Model
  import opened Investigation
  import opened Index
  import opened CorrelationIds

  datatype Stance = Flags | DoesNotFlag | NoRecord | Unclear

  datatype ProviderClaim = ProviderClaim(provider: SourceId, observation: ObservationId, stance: Stance,
                                         collectedAt: Timestamp)

  datatype Dispute =
    | OriginsDiffer(ip: IpAddr, sides: set<set<Entity>>)
    | NetworksDiffer(ip: IpAddr, sides: set<set<Entity>>)
    | PrefixMissesAddress(prefix: IpPrefix, ip: IpAddr)
    | RangeMissesAddress(ip: IpAddr)
    | PrefixesApart(prefix: IpPrefix, networks: seq<IpPrefix>, ip: IpAddr)
    | ProvidersDisagree(indicator: Indicator, flagging: set<SourceId>, others: set<SourceId>)
    | ProviderVaries(provider: SourceId, indicator: Indicator, stances: set<Stance>)

  datatype Conflict = Conflict(about: Dispute, evidence: seq<ObservationId>)

  datatype Gap =
    | NoOrigin(ip: IpAddr, statuses: seq<SourceStatus>)
    | NoNetwork(ip: IpAddr, statuses: seq<SourceStatus>)
    | NamesWithoutDns(count: nat)

  datatype Caveat =
    | RoutingIsNotOwnership | MultipleOrigins | CertificateIsNotProof | CtNamesNotResolved
    | LinksCut(shown: nat, total: nat) | LinksSampled(perName: nat)
    | OwnClassifications | NotResolved | SharingIsNotAttribution | NotSimultaneous

  datatype Draft = Draft(subjects: seq<Entity>, links: seq<Relationship>, claims: seq<ProviderClaim>,
                         supporting: seq<ObservationId>, conflicts: seq<Conflict>, gaps: seq<Gap>,
                         limitations: seq<Caveat>)

  datatype Correlation = Correlation(id: nat, kind: CorrelationKind, subjects: seq<Entity>,
                                     links: seq<Relationship>, claims: seq<ProviderClaim>,
                                     supporting: seq<ObservationId>, conflicts: seq<Conflict>, gaps: seq<Gap>,
                                     first: Timestamp, last: Timestamp, evidence: seq<ObservationId>,
                                     confidence: nat, limitations: seq<Caveat>)

  datatype CorrelationError = MissingEvidence | UnknownObservation(id: ObservationId) | UnknownEntity

  // ---------------------------------------------------------------- citations

  function LinkEvidence(links: seq<Relationship>): (r: seq<ObservationId>)
  {
    if links == [] then [] else links[0].evidence + LinkEvidence(links[1..])
  }

  function ConflictEvidence(conflicts: seq<Conflict>): (r: seq<ObservationId>)
  {
    if conflicts == [] then [] else conflicts[0].evidence + ConflictEvidence(conflicts[1..])
  }

  function ClaimIds(claims: seq<ProviderClaim>): (r: seq<ObservationId>)
  {
    seq(|claims|, i requires 0 <= i < |claims| => claims[i].observation)
  }

  function Cited(d: Draft): (r: seq<ObservationId>)
  {
    LinkEvidence(d.links) + ClaimIds(d.claims) + d.supporting + ConflictEvidence(d.conflicts)
  }

  /** Something in the draft cites the observation. */
  ghost predicate Cites(d: Draft, id: ObservationId)
  {
    || (exists l :: l in d.links && id in l.evidence)
    || (exists c :: c in d.claims && id == c.observation)
    || id in d.supporting
    || (exists c :: c in d.conflicts && id in c.evidence)
  }

  lemma {:induction false} LinkEvidenceMembers(links: seq<Relationship>, id: ObservationId)
    ensures id in LinkEvidence(links) <==> exists l :: l in links && id in l.evidence
  {
    if links != [] {
      LinkEvidenceMembers(links[1..], id);
      assert links == [links[0]] + links[1..];
    }
  }

  lemma {:induction false} ConflictEvidenceMembers(conflicts: seq<Conflict>, id: ObservationId)
    ensures id in ConflictEvidence(conflicts) <==> exists c :: c in conflicts && id in c.evidence
  {
    if conflicts != [] {
      ConflictEvidenceMembers(conflicts[1..], id);
      assert conflicts == [conflicts[0]] + conflicts[1..];
    }
  }

  lemma ClaimIdMembers(claims: seq<ProviderClaim>, id: ObservationId)
    ensures id in ClaimIds(claims) <==> exists c :: c in claims && id == c.observation
  {
    if c :| c in claims && id == c.observation {
      var i :| 0 <= i < |claims| && claims[i] == c;
      assert ClaimIds(claims)[i] == id;
    }
  }

  lemma CitedMembers(d: Draft, id: ObservationId)
    ensures id in Cited(d) <==> Cites(d, id)
  {
    LinkEvidenceMembers(d.links, id);
    ConflictEvidenceMembers(d.conflicts, id);
    ClaimIdMembers(d.claims, id);
  }

  // ----------------------------------------------------------------- building

  function Least(xs: seq<int>): (r: int)
    requires xs != []
    ensures r in xs && forall x :: x in xs ==> r <= x
  {
    if |xs| == 1 then xs[0]
    else
      var rest := Least(xs[1..]);
      assert xs == [xs[0]] + xs[1..];
      if xs[0] <= rest then xs[0] else rest
  }

  function Greatest(xs: seq<int>): (r: int)
    requires xs != []
    ensures r in xs && forall x :: x in xs ==> x <= r
  {
    if |xs| == 1 then xs[0]
    else
      var rest := Greatest(xs[1..]);
      assert xs == [xs[0]] + xs[1..];
      if xs[0] >= rest then xs[0] else rest
  }

  function Times(os: seq<Observation>): (r: seq<int>)
  {
    seq(|os|, i requires 0 <= i < |os| => os[i].collectedAt)
  }

  function Confidences(os: seq<Observation>): (r: seq<int>)
  {
    seq(|os|, i requires 0 <= i < |os| => os[i].confidence)
  }

  function ClaimKey(c: ProviderClaim): (k: Key) { [Codes(c.provider), [c.collectedAt], [c.observation]] }
  function ClaimObservation(c: ProviderClaim): (id: ObservationId) { c.observation }

  function Tidy(c: Conflict): (r: Conflict)
  {
    c.(evidence := Unique(c.evidence, IdKey))
  }

  function TidyAll(conflicts: seq<Conflict>): (r: seq<Conflict>)
  {
    seq(|conflicts|, i requires 0 <= i < |conflicts| => Tidy(conflicts[i]))
  }

  function FirstMissing(ix: EvidenceIndex, ids: seq<ObservationId>): (r: Option<ObservationId>)
  {
    if ids == [] then None else if ids[0] !in ix.byId then Some(ids[0]) else FirstMissing(ix, ids[1..])
  }

  function Resolved(ix: EvidenceIndex, ids: seq<ObservationId>): (r: seq<Observation>)
    requires forall id :: id in ids ==> id in ix.byId
  {
    seq(|ids|, i requires 0 <= i < |ids| => ix.byId[ids[i]])
  }

  lemma {:induction false} FirstMissingMeaning(ix: EvidenceIndex, ids: seq<ObservationId>)
    ensures FirstMissing(ix, ids).None? <==> forall id :: id in ids ==> id in ix.byId
    ensures FirstMissing(ix, ids).Some? ==> FirstMissing(ix, ids).value in ids && FirstMissing(ix, ids).value !in ix.byId
  {
    if ids != [] {
      FirstMissingMeaning(ix, ids[1..]);
      assert ids == [ids[0]] + ids[1..];
    }
  }

  function Closing(first: Timestamp, last: Timestamp): (r: seq<Caveat>)
  {
    if first != last then [NotSimultaneous] else []
  }

  function Completed(d: Draft, kind: CorrelationKind, naming: Naming, subjects: seq<Entity>,
                     evidence: seq<ObservationId>, os: seq<Observation>): (c: Correlation)
    requires os != []
  {
    var first, last := Least(Times(os)), Greatest(Times(os));
    Correlation(Derive(naming, kind, subjects, evidence), kind, subjects, Canonical(d.links),
                DedupBy(SortBy(d.claims, ClaimKey), ClaimObservation), Unique(d.supporting, IdKey),
                TidyAll(d.conflicts), d.gaps, first, last, evidence, Least(Confidences(os)),
                DedupBy(d.limitations + Closing(first, last), Itself))
  }

  predicate EmptyConflict(d: Draft)
  {
    exists i :: 0 <= i < |d.conflicts| && d.conflicts[i].evidence == []
  }

  predicate KnowsAll(ix: EvidenceIndex, subjects: seq<Entity>)
  {
    forall i :: 0 <= i < |subjects| ==> KnowsEntity(ix, subjects[i])
  }

  function Evidence(d: Draft): (r: seq<ObservationId>)
  {
    Unique(Cited(d), IdKey)
  }

  function Built(d: Draft, kind: CorrelationKind, ix: EvidenceIndex, naming: Naming): (r: Result<Correlation, CorrelationError>)
  {
    var evidence := Evidence(d);
    if EmptyConflict(d) || evidence == [] then Err(CorrelationError.MissingEvidence)
    else
      FirstMissingMeaning(ix, evidence);
      match FirstMissing(ix, evidence)
      case Some(id) => Err(CorrelationError.UnknownObservation(id))
      case None =>
        var subjects := Unique(d.subjects, EntityKey);
        if !KnowsAll(ix, subjects) then Err(UnknownEntity)
        else Ok(Completed(d, kind, naming, subjects, evidence, Resolved(ix, evidence)))
  }

  lemma {:induction false} MissingAt(ix: EvidenceIndex, ids: seq<ObservationId>, i: nat)
    requires i < |ids| && ids[i] !in ix.byId
    requires forall j :: 0 <= j < i ==> ids[j] in ix.byId
    ensures FirstMissing(ix, ids) == Some(ids[i])
    decreases i
  {
    if i > 0 { MissingAt(ix, ids[1..], i - 1); }
  }

  /** Validates and completes a draft. */
  method Build(d: Draft, kind: CorrelationKind, ix: EvidenceIndex, naming: Naming) returns (r: Result<Correlation, CorrelationError>)
    ensures r == Built(d, kind, ix, naming)
  {
    if EmptyConflict(d) { return Err(CorrelationError.MissingEvidence); }
    var evidence := DedupBy(SortBy(Cited(d), IdKey), Itself);
    if evidence == [] { return Err(CorrelationError.MissingEvidence); }
    var observations: seq<Observation> := [];
    for i := 0 to |evidence|
      invariant |observations| == i
      invariant forall j :: 0 <= j < i ==> evidence[j] in ix.byId && observations[j] == ix.byId[evidence[j]]
    {
      match ObservationOf(ix, evidence[i]) {
        case None =>
          MissingAt(ix, evidence, i);
          return Err(CorrelationError.UnknownObservation(evidence[i]));
        case Some(o) =>
          observations := observations + [o];
      }
    }
    AllResolved(ix, evidence, observations);
    var subjects := DedupBy(SortBy(d.subjects, EntityKey), Itself);
    if !KnowsAll(ix, subjects) { return Err(UnknownEntity); }
    var c := Complete(d, kind, naming, subjects, evidence, observations);
    r := Ok(c);
  }

  /** Sorts and deduplicates the lists of a validated draft. */
  method Complete(d: Draft, kind: CorrelationKind, naming: Naming, subjects: seq<Entity>,
                  evidence: seq<ObservationId>, observations: seq<Observation>) returns (c: Correlation)
    requires observations != []
    ensures c == Completed(d, kind, naming, subjects, evidence, observations)
  {
    var first, last := Least(Times(observations)), Greatest(Times(observations));
    var links := DedupBy(SortBy(d.links, RelationshipKey), EdgeOf);
    var claims := DedupBy(SortBy(d.claims, ClaimKey), ClaimObservation);
    var supporting := DedupBy(SortBy(d.supporting, IdKey), Itself);
    var conflicts := TidyConflicts(d.conflicts);
    var limitations := d.limitations;
    if first != last { limitations := limitations + [NotSimultaneous]; }
    assert limitations == d.limitations + Closing(first, last);
    var id := DeriveId(naming, kind, subjects, evidence);
    c := Correlation(id, kind, subjects, links, claims, supporting, conflicts, d.gaps, first, last, evidence,
                     Least(Confidences(observations)), DedupBy(limitations, Itself));
  }

  lemma AllResolved(ix: EvidenceIndex, ids: seq<ObservationId>, os: seq<Observation>)
    requires |os| == |ids| && forall j :: 0 <= j < |ids| ==> ids[j] in ix.byId && os[j] == ix.byId[ids[j]]
    ensures FirstMissing(ix, ids).None? && (forall id :: id in ids ==> id in ix.byId) && Resolved(ix, ids) == os
  {
    FirstMissingMeaning(ix, ids);
  }

  method TidyConflicts(conflicts: seq<Conflict>) returns (r: seq<Conflict>)
    ensures r == TidyAll(conflicts)
  {
    r := conflicts;
    for i := 0 to |conflicts|
      invariant |r| == |conflicts|
      invariant forall j :: 0 <= j < i ==> r[j] == Tidy(conflicts[j])
      invariant forall j :: i <= j < |r| ==> r[j] == conflicts[j]
    {
      r := r[i := r[i].(evidence := DedupBy(SortBy(r[i].evidence, IdKey), Itself))];
    }
  }

  // ------------------------------------------------------------------ meaning

  /** What a draft needs to become a correlation. */
  ghost predicate Buildable(d: Draft, ix: EvidenceIndex)
  {
    && (forall c :: c in d.conflicts ==> c.evidence != [])
    && (exists id :: Cites(d, id))
    && (forall id :: Cites(d, id) ==> id in ix.byId)
    && (forall e :: e in d.subjects ==> KnowsEntity(ix, e))
  }

  lemma EvidenceMembers(d: Draft)
    ensures Sorted(Evidence(d), IdKey) && NoDuplicates(Evidence(d))
    ensures forall id :: id in Evidence(d) <==> Cites(d, id)
  {
    IdsApart(Cited(d));
    UniqueMeaning(Cited(d), IdKey);
    forall id ensures id in Cited(d) <==> Cites(d, id) { CitedMembers(d, id); }
  }

  lemma IdsApart(ids: seq<ObservationId>)
    ensures KeyedApart(ids, IdKey)
  {
    forall a, b | IdKey(a) == IdKey(b) ensures a == b { IdKeyInjective(a, b); }
  }

  lemma EntitiesApart(es: seq<Entity>)
    ensures KeyedApart(es, EntityKey)
  {
    forall a, b | EntityKey(a) == EntityKey(b) ensures a == b { EntityKeyInjective(a, b); }
  }

  lemma SubjectMembers(d: Draft)
    ensures var s := Unique(d.subjects, EntityKey);
      Sorted(s, EntityKey) && NoDuplicates(s) && forall e :: e in s <==> e in d.subjects
  {
    EntitiesApart(d.subjects);
    UniqueMeaning(d.subjects, EntityKey);
  }

  lemma CitesSomething(d: Draft)
    ensures Evidence(d) != [] <==> exists id :: Cites(d, id)
  {
    EvidenceMembers(d);
    var ids := Evidence(d);
    if ids != [] { assert ids[0] in ids; }
  }

  lemma EmptyConflictMeaning(d: Draft)
    ensures EmptyConflict(d) <==> exists c :: c in d.conflicts && c.evidence == []
  {
    if EmptyConflict(d) {
      var i :| 0 <= i < |d.conflicts| && d.conflicts[i].evidence == [];
      assert d.conflicts[i] in d.conflicts;
    }
  }

  lemma KnownSubjects(d: Draft, ix: EvidenceIndex)
    ensures KnowsAll(ix, Unique(d.subjects, EntityKey)) <==> forall e :: e in d.subjects ==> KnowsEntity(ix, e)
  {
    SubjectMembers(d);
    var subjects := Unique(d.subjects, EntityKey);
    assert forall i :: 0 <= i < |subjects| ==> subjects[i] in subjects;
  }

  lemma MissingCitation(d: Draft, ix: EvidenceIndex)
    ensures var m := FirstMissing(ix, Evidence(d));
      && (m.None? <==> forall id :: Cites(d, id) ==> id in ix.byId)
      && (m.Some? ==> Cites(d, m.value) && m.value !in ix.byId)
      && (m.Some? ==> forall other :: Cites(d, other) && other !in ix.byId ==> m.value <= other)
  {
    EvidenceMembers(d);
    FirstMissingMeaning(ix, Evidence(d));
    LeastMissing(ix, Evidence(d));
  }

  /** A draft is built exactly when it cites something, every conflict does, and
      everything it mentions is in the investigation. */
  lemma BuiltExactly(d: Draft, kind: CorrelationKind, ix: EvidenceIndex, naming: Naming)
    ensures Built(d, kind, ix, naming).Ok? <==> Buildable(d, ix)
  {
    CitesSomething(d);
    EmptyConflictMeaning(d);
    KnownSubjects(d, ix);
    MissingCitation(d, ix);
  }

  /** Why a draft is refused, in the order the reasons are looked for: a conflict
      or a draft without citations, then the least unknown identifier, then an
      unknown subject. */
  lemma RefusalReason(d: Draft, kind: CorrelationKind, ix: EvidenceIndex, naming: Naming)
    ensures var r := Built(d, kind, ix, naming);
      && (r == Err(CorrelationError.MissingEvidence) <==> (exists c :: c in d.conflicts && c.evidence == []) || !exists id :: Cites(d, id))
      && (r.Err? && r.error.UnknownObservation? ==>
            var id := r.error.id;
            Cites(d, id) && id !in ix.byId && forall other :: Cites(d, other) && other !in ix.byId ==> id <= other)
      && (r == Err(UnknownEntity) ==>
            (forall id :: Cites(d, id) ==> id in ix.byId) && exists e :: e in d.subjects && !KnowsEntity(ix, e))
  {
    CitesSomething(d);
    EmptyConflictMeaning(d);
    KnownSubjects(d, ix);
    MissingCitation(d, ix);
  }

  lemma {:induction false} LeastMissing(ix: EvidenceIndex, ids: seq<ObservationId>)
    requires Sorted(ids, IdKey)
    ensures FirstMissing(ix, ids).Some? ==>
              forall other :: other in ids && other !in ix.byId ==> FirstMissing(ix, ids).value <= other
  {
    if ids != [] {
      TailOf(ids, IdKey);
      LeastMissing(ix, ids[1..]);
      HeadIsLeast(ids);
      assert ids == [ids[0]] + ids[1..];
    }
  }

  lemma HeadIsLeast(ids: seq<ObservationId>)
    requires ids != [] && Sorted(ids, IdKey)
    ensures forall other :: other in ids ==> ids[0] <= other
  {
    forall j | 0 <= j < |ids| ensures ids[0] <= ids[j] {
      if j > 0 { IdKeyOrder(ids[0], ids[j]); }
    }
  }

  lemma IdKeyOrder(a: ObservationId, b: ObservationId)
    ensures KeyLe(IdKey(a), IdKey(b)) <==> a <= b
  {
    assert IdKey(a)[0] == [a] && IdKey(b)[0] == [b];
    assert IdKey(a)[1..] == [] && [a][1..] == [];
  }

  /** The evidence of a correlation is the ascending duplicate-free union of
      everything the draft cites, all of it found; the window and the confidence
      are its exact bounds; the subjects are the draft's, ascending. */
  lemma BuiltEvidence(d: Draft, kind: CorrelationKind, ix: EvidenceIndex, naming: Naming)
    requires Built(d, kind, ix, naming).Ok?
    ensures var c := Built(d, kind, ix, naming).value;
      && Sorted(c.evidence, IdKey) && NoDuplicates(c.evidence) && c.evidence != []
      && (forall id :: id in c.evidence <==> Cites(d, id))
      && (forall id :: id in c.evidence ==> id in ix.byId)
      && Sorted(c.subjects, EntityKey) && NoDuplicates(c.subjects)
      && (forall e :: e in c.subjects <==> e in d.subjects)
  {
    EvidenceMembers(d);
    SubjectMembers(d);
    FirstMissingMeaning(ix, Evidence(d));
  }

  lemma BuiltBounds(d: Draft, kind: CorrelationKind, ix: EvidenceIndex, naming: Naming)
    requires Built(d, kind, ix, naming).Ok?
    ensures var c := Built(d, kind, ix, naming).value;
      && (forall id :: id in c.evidence ==> id in ix.byId)
      && (forall id :: id in c.evidence ==> c.first <= ix.byId[id].collectedAt <= c.last)
      && (forall id :: id in c.evidence ==> c.confidence <= ix.byId[id].confidence)
      && (exists id :: id in c.evidence && ix.byId[id].collectedAt == c.first)
      && (exists id :: id in c.evidence && ix.byId[id].collectedAt == c.last)
      && (exists id :: id in c.evidence && ix.byId[id].confidence == c.confidence)
  {
    var ids := Evidence(d);
    FirstMissingMeaning(ix, ids);
    var os := Resolved(ix, ids);
    var times, confidences := Times(os), Confidences(os);
    forall id | id in ids ensures ix.byId[id].collectedAt in times && ix.byId[id].confidence in confidences {
      var i :| 0 <= i < |ids| && ids[i] == id;
      assert times[i] == ix.byId[id].collectedAt && confidences[i] == ix.byId[id].confidence;
    }
    var i :| 0 <= i < |times| && times[i] == Least(times);
    var j :| 0 <= j < |times| && times[j] == Greatest(times);
    var k :| 0 <= k < |confidences| && confidences[k] == Least(confidences);
    assert ids[i] in ids && ids[j] in ids && ids[k] in ids;
  }

  /** The links of a correlation are links of the draft, each edge of the draft
      once, in canonical order. */
  lemma BuiltLinks(d: Draft, kind: CorrelationKind, ix: EvidenceIndex, naming: Naming)
    requires Built(d, kind, ix, naming).Ok?
    ensures var c := Built(d, kind, ix, naming).value;
      && Sorted(c.links, RelationshipKey) && MarkedApart(c.links, EdgeOf)
      && (forall l :: l in c.links ==> l in d.links)
      && (forall l :: l in d.links ==> exists k :: k in c.links && EdgeOf(k) == EdgeOf(l))
  {
    forall x: Relationship, y: Relationship | RelationshipKey(x) == RelationshipKey(y) ensures x.edge == y.edge {
      EdgeKeyInjective(x.edge, y.edge);
    }
    SortDedupMeaning(d.links, EdgeOf, RelationshipKey);
  }

  /** Claims copied from their observations are listed once an observation, by
      provider, then time, then identifier. */
  lemma BuiltClaims(d: Draft, kind: CorrelationKind, ix: EvidenceIndex, naming: Naming)
    requires Built(d, kind, ix, naming).Ok?
    requires forall a, b :: a in d.claims && b in d.claims && a.observation == b.observation ==> a == b
    ensures var c := Built(d, kind, ix, naming).value;
      && Sorted(c.claims, ClaimKey) && NoDuplicates(c.claims)
      && (forall a :: a in c.claims <==> a in d.claims)
  {
    forall x: ProviderClaim, y: ProviderClaim | ClaimKey(x) == ClaimKey(y) ensures x.observation == y.observation {
      assert ClaimKey(x)[2][0] == ClaimKey(y)[2][0];
    }
    SortDedupMeaning(d.claims, ClaimObservation, ClaimKey);
    var kept := DedupBy(SortBy(d.claims, ClaimKey), ClaimObservation);
    forall a | a in d.claims ensures a in kept {
      var b :| b in kept && ClaimObservation(b) == ClaimObservation(a);
    }
  }

  /** Supporting records ascend without duplicates. */
  lemma BuiltSupporting(d: Draft, kind: CorrelationKind, ix: EvidenceIndex, naming: Naming)
    requires Built(d, kind, ix, naming).Ok?
    ensures var c := Built(d, kind, ix, naming).value;
      && Sorted(c.supporting, IdKey) && NoDuplicates(c.supporting)
      && (forall id :: id in c.supporting <==> id in d.supporting)
  {
    IdsApart(d.supporting);
    UniqueMeaning(d.supporting, IdKey);
  }

  /** The caveat about different times is added exactly when the window is not a
      single moment, and no other caveat is added or lost. */
  lemma BuiltLimitations(d: Draft, kind: CorrelationKind, ix: EvidenceIndex, naming: Naming)
    requires Built(d, kind, ix, naming).Ok?
    ensures var c := Built(d, kind, ix, naming).value;
      forall l :: l in c.limitations <==> l in d.limitations || (l == NotSimultaneous && c.first != c.last)
  {
    var c := Built(d, kind, ix, naming).value;
    LimitationMembers(d.limitations, c.first, c.last);
  }

  /** Caveats that stand once each, the one about different times not among them. */
  ghost predicate Once(limitations: seq<Caveat>)
  {
    NoDuplicates(limitations) && NotSimultaneous !in limitations
  }

  /** Then the correlation has them in that order, and the one about different times
      last. */
  lemma BuiltCaveats(d: Draft, kind: CorrelationKind, ix: EvidenceIndex, naming: Naming)
    requires Built(d, kind, ix, naming).Ok? && Once(d.limitations)
    ensures var c := Built(d, kind, ix, naming).value;
            c.limitations == d.limitations + (if c.first != c.last then [NotSimultaneous] else [])
  {
    var c := Built(d, kind, ix, naming).value;
    CaveatsApart(d.limitations, c.first, c.last);
  }

  lemma CaveatsApart(limitations: seq<Caveat>, first: Timestamp, last: Timestamp)
    requires Once(limitations)
    ensures DedupBy(limitations + Closing(first, last), Itself) == limitations + Closing(first, last)
  {
    assert MarkedApart(limitations + Closing(first, last), Itself);
    DedupByIdentity(limitations + Closing(first, last), Itself);
  }

  lemma LimitationMembers(limitations: seq<Caveat>, first: Timestamp, last: Timestamp)
    ensures forall l :: l in DedupBy(limitations + Closing(first, last), Itself)
                        <==> l in limitations || (l == NotSimultaneous && first != last)
  {
    DedupByKeeps(limitations + Closing(first, last), Itself);
  }

  /** Each conflict keeps what it is about and its evidence, ascending without
      duplicates. */
  lemma BuiltConflicts(d: Draft, kind: CorrelationKind, ix: EvidenceIndex, naming: Naming, i: nat)
    requires Built(d, kind, ix, naming).Ok? && i < |d.conflicts|
    ensures var c := Built(d, kind, ix, naming).value;
      && |c.conflicts| == |d.conflicts|
      && c.conflicts[i].about == d.conflicts[i].about
      && Sorted(c.conflicts[i].evidence, IdKey) && NoDuplicates(c.conflicts[i].evidence)
      && (forall id :: id in c.conflicts[i].evidence <==> id in d.conflicts[i].evidence)
  {
    IdsApart(d.conflicts[i].evidence);
    UniqueMeaning(d.conflicts[i].evidence, IdKey);
  }

  /** The gaps are the draft's, and so are the kind and, through it, the code. */
  lemma BuiltGaps(d: Draft, kind: CorrelationKind, ix: EvidenceIndex, naming: Naming)
    requires Built(d, kind, ix, naming).Ok?
    ensures Built(d, kind, ix, naming).value.gaps == d.gaps && Built(d, kind, ix, naming).value.kind == kind
  {
  }

  /** The observations behind a correlation, as far as the index finds them. */
  function Provenance(ix: EvidenceIndex, ids: seq<ObservationId>): (r: seq<Observation>)
  {
    if ids == [] then []
    else (if ids[0] in ix.byId then [ix.byId[ids[0]]] else []) + Provenance(ix, ids[1..])
  }

  /** It finds all of them, one for each piece of evidence, in order. */
  lemma {:induction false} ProvenanceComplete(ix: EvidenceIndex, ids: seq<ObservationId>)
    requires forall id :: id in ids ==> id in ix.byId
    ensures |Provenance(ix, ids)| == |ids|
    ensures forall i :: 0 <= i < |ids| ==> Provenance(ix, ids)[i] == ix.byId[ids[i]]
  {
    if ids != [] { ProvenanceComplete(ix, ids[1..]); }
  }

  // ----------------------------------------------------------------- findings

  /** The finding that describes a correlation. */
  function FindingOf(c: Correlation): (f: Finding)
  {
    Finding("correlation." + KindText(c.kind), c.confidence, Merged([], c.evidence))
  }

  /** It cites exactly the evidence of the correlation, in the same order. */
  lemma FindingCites(c: Correlation)
    requires NoDuplicates(c.evidence)
    ensures FindingOf(c).evidence == c.evidence && FindingOf(c).confidence == c.confidence
  {
    MergedFresh([], c.evidence);
  }

  lemma {:induction false} MergedFresh(existing: seq<ObservationId>, more: seq<ObservationId>)
    requires NoDuplicates(existing + more)
    ensures Merged(existing, more) == existing + more
    decreases |more|
  {
    if more != [] {
      var all := existing + more;
      assert more[0] !in existing by {
        forall i | 0 <= i < |existing| ensures existing[i] != more[0] {
          assert all[i] == existing[i] && all[|existing|] == more[0];
        }
      }
      assert existing + [more[0]] + more[1..] == all;
      MergedFresh(existing + [more[0]], more[1..]);
    }
  }
}
