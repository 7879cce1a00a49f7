/** What the report says about itself: the order of its correlations, and what it left
    out. */
module ReportNotes {
  import opened Results
  import opened Ordering
  import opened Model
  import opened Investigation
  import opened Index
  import opened IndexFacts
  import opened CorrelationIds
  import opened Drafts
  import opened Emissions
  import opened Correlate
  import opened ReportFacts
  import Shared
  import opened GroupFacts

  // --------------------------------------------------------------- limitations

  /** The identifiers of the observations. */
  ghost function IdsIn(s: Store): (r: set<ObservationId>)
  {
    set o | o in s.observations :: o.id
  }

  lemma IdsIndexed(s: Store)
    ensures IndexOf(s).byId.Keys == IdsIn(s) && |IdsIn(s)| + IndexOf(s).duplicateIds == |s.observations|
  {
    ObservationLookup(s, 0);
    forall id ensures id in IndexOf(s).byId <==> id in IdsIn(s) {
      ObservationLookup(s, id);
      FindObservationMeaning(s.observations, id);
    }
  }

  lemma SeveralCounted(s: Store)
    requires Sound(s)
    ensures |Shared.Ranked(Shared.Covering(IndexOf(s)))| == |Several(s)|
  {
    var ranked := Shared.Ranked(Shared.Covering(IndexOf(s)));
    RankedApart(Shared.Covering(IndexOf(s)));
    SeveralRanked(s);
    CountMembers(ranked);
    assert Elements(ranked) == Several(s);
  }

  lemma CaveatsTold(several: nat, reused: nat, truncated: Option<nat>, z: ReportCaveat)
    requires truncated == if several > Shared.MAX_CERTIFICATE_GROUPS then Some(several) else None
    ensures z in Correlate.Caveats(truncated, reused, 0) <==>
              || (several > Shared.MAX_CERTIFICATE_GROUPS && z == CertificateGroupsCut(several))
              || (reused > 0 && z == IdsReused(reused))
  {
  }

  /** The report of a sound investigation says how many certificates list several names
      when these are more than it reports, and how many observations reuse an
      identifier, if some do; it says nothing else about itself. */
  lemma LimitationsExactly(s: Store, naming: Naming, z: ReportCaveat)
    requires Sound(s)
    ensures z in ReportOf(s, naming).limitations <==>
              || (|Several(s)| > Shared.MAX_CERTIFICATE_GROUPS && z == CertificateGroupsCut(|Several(s)|))
              || (|IdsIn(s)| < |s.observations| && z == IdsReused(|s.observations| - |IdsIn(s)|))
  {
    NoCandidateRejected(s, naming);
    NotesCounted(s, z);
  }

  lemma NotesCounted(s: Store, z: ReportCaveat)
    requires Sound(s)
    ensures z in Correlate.Caveats(Shared.Truncation(IndexOf(s)), IndexOf(s).duplicateIds, 0) <==>
              || (|Several(s)| > Shared.MAX_CERTIFICATE_GROUPS && z == CertificateGroupsCut(|Several(s)|))
              || (|IdsIn(s)| < |s.observations| && z == IdsReused(|s.observations| - |IdsIn(s)|))
  {
    IdsIndexed(s);
    SeveralCounted(s);
    CaveatsTold(|Several(s)|, IndexOf(s).duplicateIds, Shared.Truncation(IndexOf(s)), z);
  }

  // --------------------------------------------------------------------- order

  /** The first list stands before the second, or is the same: where they first differ
      it has the smaller entity, or it ends there. */
  ghost predicate SubjectsLe(a: seq<Entity>, b: seq<Entity>)
  {
    exists k :: 0 <= k <= |a| && k <= |b| && a[..k] == b[..k] &&
      (k == |a| || (k < |b| && a[k] != b[k] && KeyLe(EntityKey(a[k]), EntityKey(b[k]))))
  }

  /** One correlation stands before another: by kind, then by subjects, then by
      identifier. */
  ghost predicate StandsBefore(c: Correlation, d: Correlation)
  {
    || CorrelationRank(c.kind) < CorrelationRank(d.kind)
    || (c.kind == d.kind && SubjectsLe(c.subjects, d.subjects) && (c.subjects == d.subjects ==> c.id <= d.id))
  }

  lemma LastPart(a: seq<int>, b: seq<int>)
    ensures KeyLe([a], [b]) <==> LexLe(a, b)
  {
    LexTotal(a, a);
  }

  /** Links stand by kind, then by source, then by target. */
  lemma LinksInOrder(k: Relationship, l: Relationship)
    ensures KeyLe(RelationshipKey(k), RelationshipKey(l)) <==>
              || KindRank(k.edge.kind) < KindRank(l.edge.kind)
              || (k.edge.kind == l.edge.kind && k.edge.source != l.edge.source && KeyLe(EntityKey(k.edge.source), EntityKey(l.edge.source)))
              || (k.edge.kind == l.edge.kind && k.edge.source == l.edge.source && KeyLe(EntityKey(k.edge.target), EntityKey(l.edge.target)))
  {
    var a, b := [KindRank(k.edge.kind)], [KindRank(l.edge.kind)];
    var c, d := EntityCode(k.edge.source), EntityCode(l.edge.source);
    assert RelationshipKey(k)[1..] == [c, EntityCode(k.edge.target)] && RelationshipKey(l)[1..] == [d, EntityCode(l.edge.target)];
    assert [c, EntityCode(k.edge.target)][1..] == EntityKey(k.edge.target) && [d, EntityCode(l.edge.target)][1..] == EntityKey(l.edge.target);
    if a == b { assert a[0] == b[0]; }
    if c == d { EntityCodeInjective(k.edge.source, l.edge.source); }
    LastPart(c, d);
  }

  /** Claims stand by provider, then by time, then by observation. */
  lemma ClaimsInOrder(a: ProviderClaim, b: ProviderClaim)
    ensures KeyLe(ClaimKey(a), ClaimKey(b)) <==>
              || (a.provider != b.provider && LexLe(Codes(a.provider), Codes(b.provider)))
              || (a.provider == b.provider && a.collectedAt < b.collectedAt)
              || (a.provider == b.provider && a.collectedAt == b.collectedAt && a.observation <= b.observation)
  {
    var x, y := Codes(a.provider), Codes(b.provider);
    if x == y { CodesInjective(a.provider, b.provider); }
    assert ClaimKey(a)[1..] == [[a.collectedAt], [a.observation]] && ClaimKey(b)[1..] == [[b.collectedAt], [b.observation]];
    TwoNumbers(a.collectedAt, a.observation, b.collectedAt, b.observation);
  }

  lemma TwoNumbers(i: int, j: int, k: int, l: int)
    ensures KeyLe([[i], [j]], [[k], [l]]) <==> i < k || (i == k && j <= l)
  {
    assert [i][0] == i && [k][0] == k && [j][0] == j && [l][0] == l;
    assert [[i], [j]][1..] == [[j]] && [[k], [l]][1..] == [[l]];
    LastPart([j], [l]);
  }

  function Tail(subjects: seq<Entity>, id: nat): (k: Key)
  {
    SubjectCodes(subjects) + [[]] + [[id]]
  }

  lemma TailStep(subjects: seq<Entity>, id: nat)
    ensures subjects == [] ==> Tail(subjects, id) == [[], [id]]
    ensures subjects != [] ==> Tail(subjects, id)[0] == EntityCode(subjects[0]) && Tail(subjects, id)[1..] == Tail(subjects[1..], id)
  {
    if subjects != [] {
      assert SubjectCodes(subjects) == [EntityCode(subjects[0])] + SubjectCodes(subjects[1..]);
    }
  }

  lemma OneFirst(a: seq<Entity>, b: seq<Entity>)
    requires a != [] && b != [] && a[0] == b[0] && SubjectsLe(a[1..], b[1..])
    ensures SubjectsLe(a, b)
  {
    var k :| 0 <= k <= |a[1..]| && k <= |b[1..]| && a[1..][..k] == b[1..][..k] &&
      (k == |a[1..]| || (k < |b[1..]| && a[1..][k] != b[1..][k] && KeyLe(EntityKey(a[1..][k]), EntityKey(b[1..][k]))));
    assert a[..k + 1] == [a[0]] + a[1..][..k] && b[..k + 1] == [b[0]] + b[1..][..k];
  }

  lemma FirstDiffers(a: seq<Entity>, b: seq<Entity>)
    requires a != [] && b != [] && a[0] != b[0] && LexLe(EntityCode(a[0]), EntityCode(b[0]))
    ensures SubjectsLe(a, b)
  {
    if EntityCode(a[0]) == EntityCode(b[0]) { EntityCodeInjective(a[0], b[0]); }
    assert a[..0] == b[..0] && KeyLe(EntityKey(a[0]), EntityKey(b[0]));
  }

  lemma {:induction false} TailOrder(a: seq<Entity>, b: seq<Entity>, i: nat, j: nat)
    requires KeyLe(Tail(a, i), Tail(b, j))
    ensures SubjectsLe(a, b) && (a == b ==> i <= j)
  {
    TailStep(a, i);
    TailStep(b, j);
    if a == [] {
      assert a[..0] == b[..0];
      if b == [] { assert KeyLe([[], [i]][1..], [[], [j]][1..]); }
    } else if b != [] {
      if a[0] == b[0] {
        TailOrder(a[1..], b[1..], i, j);
        OneFirst(a, b);
      } else {
        if EntityCode(a[0]) == EntityCode(b[0]) { EntityCodeInjective(a[0], b[0]); }
        FirstDiffers(a, b);
      }
    }
  }

  lemma KeyOrder(c: Correlation, d: Correlation)
    requires KeyLe(CorrelationKey(c), CorrelationKey(d))
    ensures StandsBefore(c, d)
  {
    var x, y := [CorrelationRank(c.kind)], [CorrelationRank(d.kind)];
    assert CorrelationKey(c) == [x] + Tail(c.subjects, c.id) && CorrelationKey(d) == [y] + Tail(d.subjects, d.id);
    if x == y {
      assert x[0] == y[0];
      TailOrder(c.subjects, d.subjects, c.id, d.id);
    }
  }

  /** The report lists its correlations by kind, then by subjects, then by identifier. */
  lemma ReportInOrder(s: Store, naming: Naming, i: nat, j: nat)
    requires i < j < |ReportOf(s, naming).correlations|
    ensures StandsBefore(ReportOf(s, naming).correlations[i], ReportOf(s, naming).correlations[j])
  {
    IndexWired(s);
    var built := BuiltFrom(AllEmitted(IndexOf(s)), IndexOf(s), naming);
    SortBySorts(built, CorrelationKey);
    DedupBySorted(SortBy(built, CorrelationKey), IdOf, CorrelationKey);
    KeyOrder(ReportOf(s, naming).correlations[i], ReportOf(s, naming).correlations[j]);
  }
}
