/** The whole correlation pass (crates/correlation/src/lib.rs): its report is a
    function of the evidence, not of the order the evidence came in; it states
    nothing the investigation does not hold; and its identifiers tell its
    correlations apart. */
module Correlate {
  import opened Results
  import opened Ordering
  import opened Model
  import opened Investigation
  import opened Index
  import opened IndexFacts
  import opened CorrelationIds
  import opened Drafts
  import opened Emissions
  import Display
  import Infrastructure
  import CertificateRules
  import Providers
  import Shared

  datatype ReportCaveat = CertificateGroupsCut(total: nat) | IdsReused(count: nat) | CandidatesRejected(count: nat)

  datatype Report = Report(correlations: seq<Correlation>, findings: seq<Finding>, limitations: seq<ReportCaveat>)

  /** Everything the rules emit, in the order they run. */
  ghost function AllEmitted(ix: EvidenceIndex): (r: seq<Emission>)
    requires Wired(ix)
  {
    Infrastructure.Emitted(ix) + CertificateRules.Emitted(ix) + Providers.Emitted(ix) + Shared.Emitted(ix)
  }

  method RunRules(emit: Emit) returns (truncated: Option<nat>)
    requires emit.Valid() && Wired(emit.ix) && emit.log == []
    modifies emit
    ensures emit.Valid() && emit.log == AllEmitted(emit.ix) && truncated == Shared.Truncation(emit.ix)
  {
    Infrastructure.Correlate(emit);
    CertificateRules.Correlate(emit);
    Providers.Correlate(emit);
    truncated := Shared.Correlate(emit);
    assert [] + Infrastructure.Emitted(emit.ix) == Infrastructure.Emitted(emit.ix);
  }

  function SubjectCodes(subjects: seq<Entity>): (k: Key)
  {
    seq(|subjects|, i requires 0 <= i < |subjects| => EntityCode(subjects[i]))
  }

  /** By kind, then subjects, then identifier. The empty sequence that closes the
      subjects sorts before any subject, so a prefix comes first. */
  function CorrelationKey(c: Correlation): (k: Key)
  {
    [[CorrelationRank(c.kind)]] + SubjectCodes(c.subjects) + [[]] + [[c.id]]
  }

  function IdOf(c: Correlation): (id: nat) { c.id }

  function Arranged(built: seq<Correlation>): (r: seq<Correlation>)
  {
    DedupBy(SortBy(built, CorrelationKey), IdOf)
  }

  function FindingsOf(cs: seq<Correlation>): (r: seq<Finding>)
  {
    seq(|cs|, i requires 0 <= i < |cs| => FindingOf(cs[i]))
  }

  function Caveats(truncated: Option<nat>, reused: nat, rejected: nat): (r: seq<ReportCaveat>)
  {
    (match truncated case Some(total) => [CertificateGroupsCut(total)] case None => [])
    + (if reused > 0 then [IdsReused(reused)] else []) + (if rejected > 0 then [CandidatesRejected(rejected)] else [])
  }

  function Assembled(log: seq<Emission>, ix: EvidenceIndex, naming: Naming, truncated: Option<nat>): (r: Report)
  {
    var correlations := Arranged(BuiltFrom(log, ix, naming));
    Report(correlations, FindingsOf(correlations),
           Caveats(truncated, ix.duplicateIds, |RejectedFrom(log, ix, naming)|))
  }

  /** The report as a function of the index. */
  ghost function ReportFrom(ix: EvidenceIndex, naming: Naming): (r: Report)
    requires Wired(ix)
  {
    Assembled(AllEmitted(ix), ix, naming, Shared.Truncation(ix))
  }

  ghost function ReportOf(s: Store, naming: Naming): (r: Report)
  {
    IndexWired(s);
    ReportFrom(IndexOf(s), naming)
  }

  lemma IndexWired(s: Store)
    ensures Wired(IndexOf(s))
  {
  }

  method Assemble(emit: Emit, truncated: Option<nat>) returns (report: Report)
    requires emit.Valid()
    ensures report == Assembled(emit.log, emit.ix, emit.naming, truncated)
  {
    var correlations := SortBy(emit.built, CorrelationKey);
    correlations := DedupBy(correlations, IdOf);
    var findings := FindingsOf(correlations);
    var limitations: seq<ReportCaveat> := [];
    if truncated.Some? { limitations := limitations + [CertificateGroupsCut(truncated.value)]; }
    if emit.ix.duplicateIds > 0 { limitations := limitations + [IdsReused(emit.ix.duplicateIds)]; }
    if |emit.rejected| > 0 { limitations := limitations + [CandidatesRejected(|emit.rejected|)]; }
    assert limitations == Caveats(truncated, emit.ix.duplicateIds, |emit.rejected|);
    report := Report(correlations, findings, limitations);
  }

  /** Correlates a finished investigation. */
  method Correlate(a: Aggregate, naming: Naming) returns (report: Report)
    ensures report == ReportOf(a.View(), naming)
  {
    var ix := NewIndex(a);
    IndexWired(a.View());
    report := CorrelateIndex(ix, naming);
  }

  method CorrelateIndex(ix: EvidenceIndex, naming: Naming) returns (report: Report)
    requires Wired(ix)
    ensures report == ReportFrom(ix, naming)
  {
    var emit := new Emit(ix, naming);
    var truncated := RunRules(emit);
    report := Assemble(emit, truncated);
  }

  // -------------------------------------------------------------- determinism

  /** Correlating is independent of insertion order. */
  lemma OrderForgotten(s: Store, t: Store, naming: Naming)
    requires SameEvidence(s, t)
    ensures ReportOf(s, naming) == ReportOf(t, naming)
  {
    IndexIsCanonical(s, t);
  }

  // ------------------------------------------------------------- no rejection

  lemma EverythingDerived(ix: EvidenceIndex)
    requires Grounded(ix)
    ensures AllDerived(ix, AllEmitted(ix))
  {
    var a, b, c, d := Infrastructure.Emitted(ix), CertificateRules.Emitted(ix), Providers.Emitted(ix), Shared.Emitted(ix);
    Infrastructure.EmittedDerived(ix);
    CertificateRules.EmittedDerived(ix);
    Providers.EmittedDerived(ix);
    Shared.EmittedDerived(ix);
    DerivedConcat(ix, a, b);
    DerivedConcat(ix, a + b, c);
    DerivedConcat(ix, a + b + c, d);
  }

  /** No rule ever emits a draft that is refused, whatever sound investigation it
      is run on. */
  lemma NoCandidateRejected(s: Store, naming: Naming)
    requires Sound(s)
    ensures RejectedFrom(AllEmitted(IndexOf(s)), IndexOf(s), naming) == []
    ensures ReportOf(s, naming).limitations == Caveats(Shared.Truncation(IndexOf(s)), IndexOf(s).duplicateIds, 0)
  {
    IndexIsGrounded(s);
    EverythingDerived(IndexOf(s));
    NothingRejected(AllEmitted(IndexOf(s)), IndexOf(s), naming);
  }

  // -------------------------------------------------------------- no new facts

  /** The correlation states only what the investigation holds. */
  ghost predicate StatesOnly(s: Store, c: Correlation)
  {
    && c.evidence != [] && AllKnown(s, c.evidence)
    && (forall l :: l in c.links ==> l in s.relationships)
    && (forall e :: e in c.subjects ==> KnowsEntity(IndexOf(s), e))
  }

  lemma ReportedIsBuilt(built: seq<Correlation>, c: Correlation)
    requires c in Arranged(built)
    ensures c in built
  {
    SortBySorts(built, CorrelationKey);
    DedupByKeeps(SortBy(built, CorrelationKey), IdOf);
  }

  lemma BuiltStatesOnly(s: Store, d: Draft, kind: CorrelationKind, naming: Naming)
    requires Sound(s) && Derived(IndexOf(s), d) && Built(d, kind, IndexOf(s), naming).Ok?
    ensures StatesOnly(s, Built(d, kind, IndexOf(s), naming).value)
  {
    var ix := IndexOf(s);
    var c := Built(d, kind, ix, naming).value;
    BuiltEvidence(d, kind, ix, naming);
    BuiltLinks(d, kind, ix, naming);
    CanonicalList(s);
    SameMembers(ix.relationships, s.relationships);
    forall id | id in c.evidence ensures Known(s, id) {
      IndexedIsKnown(s, id);
    }
  }

  lemma IndexedIsKnown(s: Store, id: ObservationId)
    requires id in IndexOf(s).byId
    ensures Known(s, id)
  {
  }

  /** A reported correlation was built from a draft some rule emitted. */
  lemma ReportedFromDraft(s: Store, naming: Naming, c: Correlation) returns (i: nat)
    requires Sound(s) && c in ReportOf(s, naming).correlations
    ensures i < |AllEmitted(IndexOf(s))|
    ensures var e := AllEmitted(IndexOf(s))[i];
      Derived(IndexOf(s), e.draft) && Built(e.draft, e.kind, IndexOf(s), naming) == Ok(c)
  {
    var ix := IndexOf(s);
    var log := AllEmitted(ix);
    IndexIsGrounded(s);
    EverythingDerived(ix);
    NothingRejected(log, ix, naming);
    var built := BuiltFrom(log, ix, naming);
    ReportedIsBuilt(built, c);
    i :| 0 <= i < |built| && built[i] == c;
    assert log[i] in log;
  }

  /** Every reported correlation states only what the investigation holds. */
  lemma NoNewFacts(s: Store, naming: Naming, c: Correlation)
    requires Sound(s) && c in ReportOf(s, naming).correlations
    ensures StatesOnly(s, c)
  {
    var i := ReportedFromDraft(s, naming, c);
    var e := AllEmitted(IndexOf(s))[i];
    BuiltStatesOnly(s, e.draft, e.kind, naming);
  }

  /** Findings match correlations one to one and in order, cite their evidence, and
      the investigation would accept every one of them. */
  lemma FindingsMatch(s: Store, naming: Naming, i: nat)
    requires Sound(s) && i < |ReportOf(s, naming).correlations|
    ensures var r := ReportOf(s, naming);
      && |r.findings| == |r.correlations|
      && r.findings[i].evidence == r.correlations[i].evidence
      && r.findings[i].confidence == r.correlations[i].confidence
      && r.findings[i].code == "correlation." + KindText(r.correlations[i].kind)
      && WithFinding(s, r.findings[i]).1.Ok?
  {
    var c := ReportOf(s, naming).correlations[i];
    NoNewFacts(s, naming, c);
    var k := ReportedFromDraft(s, naming, c);
    var e := AllEmitted(IndexOf(s))[k];
    BuiltEvidence(e.draft, e.kind, IndexOf(s), naming);
    FindingCites(c);
    AddFindingSound(s, FindingOf(c));
  }

  // --------------------------------------------------------------- identifiers

  ghost function EncodedOf(naming: Naming, c: Correlation): (r: Bytes)
  {
    Encoded(naming.display, c.kind, c.subjects, c.evidence)
  }

  /** Identifiers are the hashes of what they identify. */
  ghost predicate Identified(naming: Naming, cs: seq<Correlation>)
  {
    forall c :: c in cs ==> c.id == naming.hash(EncodedOf(naming, c))
  }

  /** The hash has no collision among these correlations. */
  ghost predicate NoCollision(naming: Naming, cs: seq<Correlation>)
  {
    forall c, d :: c in cs && d in cs && naming.hash(EncodedOf(naming, c)) == naming.hash(EncodedOf(naming, d)) ==>
      EncodedOf(naming, c) == EncodedOf(naming, d)
  }

  lemma {:induction false} BuiltIdentified(log: seq<Emission>, ix: EvidenceIndex, naming: Naming)
    ensures Identified(naming, BuiltFrom(log, ix, naming))
  {
    if log != [] { BuiltIdentified(log[..|log| - 1], ix, naming); }
  }

  lemma KeyHasId(a: Correlation, b: Correlation)
    requires CorrelationKey(a) == CorrelationKey(b)
    ensures a.id == b.id
  {
    var x, y := CorrelationKey(a), CorrelationKey(b);
    assert x[|x| - 1] == [a.id] && y[|y| - 1] == [b.id];
    assert x[|x| - 1][0] == y[|y| - 1][0];
  }

  ghost function SubjectsOf(cs: seq<Correlation>): (r: set<Entity>)
  {
    set c, e | c in cs && e in c.subjects :: e
  }

  lemma SameIdSameSubjects(naming: Naming, cs: seq<Correlation>, a: Correlation, b: Correlation)
    requires Readable(naming.display, SubjectsOf(cs)) && Identified(naming, cs) && NoCollision(naming, cs)
    requires a in cs && b in cs && a.id == b.id
    ensures a.kind == b.kind && a.subjects == b.subjects && a.evidence == b.evidence
    ensures CorrelationKey(a) == CorrelationKey(b)
  {
    EncodingInjective(naming.display, SubjectsOf(cs), a.kind, a.subjects, a.evidence, b.kind, b.subjects, b.evidence);
  }

  lemma IdsAreKeys(built: seq<Correlation>, naming: Naming)
    requires Readable(naming.display, SubjectsOf(built)) && Identified(naming, built) && NoCollision(naming, built)
    ensures forall x, y :: x in built && y in built ==> (IdOf(x) == IdOf(y) <==> CorrelationKey(x) == CorrelationKey(y))
  {
    forall x, y | x in built && y in built ensures IdOf(x) == IdOf(y) <==> CorrelationKey(x) == CorrelationKey(y) {
      if CorrelationKey(x) == CorrelationKey(y) { KeyHasId(x, y); }
      if IdOf(x) == IdOf(y) { SameIdSameSubjects(naming, built, x, y); }
    }
  }

  /** Without hash collisions equal identifiers stand next to each other after the
      sort, so the dedup leaves each identifier once. */
  lemma IdentifiersApart(built: seq<Correlation>, naming: Naming)
    requires Readable(naming.display, SubjectsOf(built)) && Identified(naming, built) && NoCollision(naming, built)
    ensures var r := Arranged(built);
      && Sorted(r, CorrelationKey) && MarkedApart(r, IdOf)
      && (forall c :: c in r ==> c in built)
      && (forall c :: c in built ==> exists d :: d in r && IdOf(d) == IdOf(c))
  {
    IdsAreKeys(built, naming);
    SortDedupMeaning(built, IdOf, CorrelationKey);
  }

  /** The dedup drops only correlations of the same kind with the same subjects and
      evidence as one it keeps. */
  lemma DroppedIsRepeated(built: seq<Correlation>, naming: Naming, c: Correlation) returns (d: Correlation)
    requires Readable(naming.display, SubjectsOf(built)) && Identified(naming, built) && NoCollision(naming, built)
    requires c in built
    ensures d in Arranged(built) && d.kind == c.kind && d.subjects == c.subjects && d.evidence == c.evidence
  {
    IdentifiersApart(built, naming);
    d :| d in Arranged(built) && IdOf(d) == IdOf(c);
    SameIdSameSubjects(naming, built, c, d);
  }

  /** Every entity the investigation knows. */
  ghost function KnownTo(ix: EvidenceIndex): (r: set<Entity>)
  {
    ix.entities + set i | i in ix.indicators :: IndicatorEntity(i)
  }

  lemma {:induction false} BuiltSubjects(log: seq<Emission>, ix: EvidenceIndex, naming: Naming)
    ensures SubjectsOf(BuiltFrom(log, ix, naming)) <= KnownTo(ix)
  {
    if log != [] {
      var init, e := log[..|log| - 1], log[|log| - 1];
      BuiltSubjects(init, ix, naming);
      var b := Built(e.draft, e.kind, ix, naming);
      if b.Ok? {
        BuiltExactly(e.draft, e.kind, ix, naming);
        BuiltEvidence(e.draft, e.kind, ix, naming);
        assert forall s :: s in b.value.subjects ==> s in KnownTo(ix);
      }
    }
  }

  lemma ReadableSubset(display: Entity -> Bytes, es: set<Entity>, fs: set<Entity>)
    requires Readable(display, es) && fs <= es
    ensures Readable(display, fs)
  {
  }

  /** If the entities of the investigation are displayed readably and the hash does
      not collide on what is built, the reported identifiers are pairwise distinct. */
  lemma ReportedIdsApart(s: Store, naming: Naming)
    requires Readable(naming.display, KnownTo(IndexOf(s)))
    requires NoCollision(naming, BuiltFrom(AllEmitted(IndexOf(s)), IndexOf(s), naming))
    ensures MarkedApart(ReportOf(s, naming).correlations, IdOf)
  {
    var built := BuiltFrom(AllEmitted(IndexOf(s)), IndexOf(s), naming);
    BuiltIdentified(AllEmitted(IndexOf(s)), IndexOf(s), naming);
    BuiltSubjects(AllEmitted(IndexOf(s)), IndexOf(s), naming);
    ReadableSubset(naming.display, KnownTo(IndexOf(s)), SubjectsOf(built));
    IdentifiersApart(built, naming);
  }

  /** With the display form of the original, identifiers are distinct unless the hash
      collides: the entities of the investigation only have to be such as their
      constructors make. */
  lemma ShownIdsApart(s: Store, naming: Naming)
    requires naming.display == Display.Shown
    requires forall e :: e in KnownTo(IndexOf(s)) ==> Display.Real(e)
    requires NoCollision(naming, BuiltFrom(AllEmitted(IndexOf(s)), IndexOf(s), naming))
    ensures MarkedApart(ReportOf(s, naming).correlations, IdOf)
  {
    Display.ShownReadable(KnownTo(IndexOf(s)));
    ReportedIdsApart(s, naming);
  }
}
