/** What the correlation rules hand over (crates/correlation/src/rules/mod.rs)
    and what makes a draft one without new facts. */
module Emissions {
  import opened Results
  import opened Model
  import opened Index
  import opened IndexFacts
  import opened CorrelationIds
  import opened Drafts

  datatype Emission = Emission(kind: CorrelationKind, draft: Draft)

  function Emitting(kind: CorrelationKind, d: Option<Draft>): (r: seq<Emission>)
  {
    match d case Some(draft) => [Emission(kind, draft)] case None => []
  }

  /** The correlations built from the drafts, in order. */
  function BuiltFrom(log: seq<Emission>, ix: EvidenceIndex, naming: Naming): (r: seq<Correlation>)
  {
    if log == [] then []
    else
      var before, e := BuiltFrom(log[..|log| - 1], ix, naming), log[|log| - 1];
      var b := Built(e.draft, e.kind, ix, naming);
      if b.Ok? then before + [b.value] else before
  }

  function RejectedFrom(log: seq<Emission>, ix: EvidenceIndex, naming: Naming): (r: seq<CorrelationError>)
  {
    if log == [] then []
    else
      var before, e := RejectedFrom(log[..|log| - 1], ix, naming), log[|log| - 1];
      var b := Built(e.draft, e.kind, ix, naming);
      if b.Err? then before + [b.error] else before
  }

  lemma LogSnoc(log: seq<Emission>, e: Emission, ix: EvidenceIndex, naming: Naming)
    ensures var b := Built(e.draft, e.kind, ix, naming);
      && BuiltFrom(log + [e], ix, naming) == BuiltFrom(log, ix, naming) + (if b.Ok? then [b.value] else [])
      && RejectedFrom(log + [e], ix, naming) == RejectedFrom(log, ix, naming) + (if b.Err? then [b.error] else [])
  {
    assert (log + [e])[..|log|] == log;
  }

  /** Where the rules push their drafts: a draft is built at once or its error is kept.
      The log is what was pushed. */
  class Emit {
    const ix: EvidenceIndex
    const naming: Naming
    var built: seq<Correlation>
    var rejected: seq<CorrelationError>
    ghost var log: seq<Emission>

    ghost predicate Valid()
      reads this
    {
      built == BuiltFrom(log, ix, naming) && rejected == RejectedFrom(log, ix, naming)
    }

    constructor (ix: EvidenceIndex, naming: Naming)
      ensures Valid() && log == [] && this.ix == ix && this.naming == naming
    {
      this.ix, this.naming := ix, naming;
      built, rejected, log := [], [], [];
    }

    method Push(kind: CorrelationKind, draft: Draft)
      requires Valid()
      modifies this
      ensures Valid() && log == old(log) + [Emission(kind, draft)]
    {
      var b := Build(draft, kind, ix, naming);
      LogSnoc(log, Emission(kind, draft), ix, naming);
      match b {
        case Ok(c) => built := built + [c];
        case Err(e) => rejected := rejected + [e];
      }
      log := log + [Emission(kind, draft)];
    }

    method PushIfAny(kind: CorrelationKind, d: Option<Draft>)
      requires Valid()
      modifies this
      ensures Valid() && log == old(log) + Emitting(kind, d)
    {
      if d.Some? { Push(kind, d.value); }
    }
  }

  /** A log that grows part by part: what is logged before each of them. */
  ghost predicate Staged(stages: seq<seq<Emission>>, parts: seq<seq<Emission>>)
  {
    && |stages| == |parts| + 1 && stages[0] == []
    && forall i :: 0 <= i < |parts| ==> stages[i + 1] == stages[i] + parts[i]
  }

  lemma Appends(a: seq<Emission>, b: seq<Emission>, c: seq<Emission>)
    ensures a + b + c == a + (b + c)
  {
  }

  // ----------------------------------------------------------- provider claims

  function OrZero(n: Option<nat>): (r: nat)
  {
    match n case Some(v) => v case None => 0
  }

  /** A provider's own reading of its data, if the data are a claim at all. */
  function StanceOf(data: ObservationData): (r: Option<Stance>)
  {
    match data
    case IpReputation(reports) =>
      Some(match reports case None => Unclear case Some(n) => if n == 0 then DoesNotFlag else Flags)
    case ProviderReputation(malicious, suspicious, undetected, harmless, timeouts) =>
      var complete := malicious.Some? && suspicious.Some? && undetected.Some? && harmless.Some? && timeouts.Some?;
      var engines := OrZero(malicious) + OrZero(suspicious) + OrZero(undetected) + OrZero(harmless) + OrZero(timeouts);
      Some(if OrZero(malicious) + OrZero(suspicious) > 0 then Flags
           else if complete && engines > 0 then DoesNotFlag else Unclear)
    case ProviderListing => Some(Flags)
    case ProviderNoRecord => Some(NoRecord)
    case _ => None
  }

  function ClaimOf(o: Observation): (r: Option<ProviderClaim>)
  {
    match StanceOf(o.data)
    case Some(stance) => Some(ProviderClaim(o.source, o.id, stance, o.collectedAt))
    case None => None
  }

  // ------------------------------------------------------------- no new facts

  ghost predicate KnownEvidence(ix: EvidenceIndex, ids: seq<ObservationId>)
  {
    forall id :: id in ids ==> id in ix.byId
  }

  ghost predicate KnownConflicts(ix: EvidenceIndex, conflicts: seq<Conflict>)
  {
    forall c :: c in conflicts ==> c.evidence != [] && KnownEvidence(ix, c.evidence)
  }

  ghost predicate ExistingLinks(ix: EvidenceIndex, links: seq<Relationship>)
  {
    forall l :: l in links ==> l in ix.relationships
  }

  ghost predicate CopiedClaims(ix: EvidenceIndex, claims: seq<ProviderClaim>)
  {
    forall c :: c in claims ==> c.observation in ix.byId && ClaimOf(ix.byId[c.observation]) == Some(c)
  }

  ghost predicate SubjectsKnown(ix: EvidenceIndex, es: seq<Entity>)
  {
    forall e :: e in es ==> KnowsEntity(ix, e)
  }

  /** The draft only composes what the investigation holds: its subjects are
      known, its links are existing relationships, its claims are copied from
      their observations, and every citation resolves. */
  ghost predicate Derived(ix: EvidenceIndex, d: Draft)
  {
    && SubjectsKnown(ix, d.subjects) && ExistingLinks(ix, d.links) && CopiedClaims(ix, d.claims)
    && KnownEvidence(ix, d.supporting) && KnownConflicts(ix, d.conflicts)
    && (d.links != [] || d.claims != [])
  }

  ghost predicate AllDerived(ix: EvidenceIndex, log: seq<Emission>)
  {
    forall e :: e in log ==> Derived(ix, e.draft)
  }

  lemma EmittingDerived(ix: EvidenceIndex, kind: CorrelationKind, d: Option<Draft>)
    requires d.Some? ==> Derived(ix, d.value)
    ensures AllDerived(ix, Emitting(kind, d))
  {
  }

  lemma DerivedConcat(ix: EvidenceIndex, a: seq<Emission>, b: seq<Emission>)
    requires AllDerived(ix, a) && AllDerived(ix, b)
    ensures AllDerived(ix, a + b)
  {
  }

  lemma {:induction false} StagesDerived(ix: EvidenceIndex, stages: seq<seq<Emission>>, parts: seq<seq<Emission>>, n: nat)
    requires Staged(stages, parts) && n <= |parts| && forall i :: 0 <= i < |parts| ==> AllDerived(ix, parts[i])
    ensures AllDerived(ix, stages[n])
  {
    if n > 0 {
      StagesDerived(ix, stages, parts, n - 1);
      assert stages[n - 1 + 1] == stages[n - 1] + parts[n - 1];
    }
  }

  /** A draft without new facts is never refused. */
  lemma DerivedBuilds(ix: EvidenceIndex, d: Draft, kind: CorrelationKind, naming: Naming)
    requires Grounded(ix) && Derived(ix, d)
    ensures Built(d, kind, ix, naming).Ok?
  {
    forall id | Cites(d, id) ensures id in ix.byId {
      if l :| l in d.links && id in l.evidence {
        assert GroundedLink(ix, l);
      }
    }
    DerivedCites(ix, d);
    BuiltExactly(d, kind, ix, naming);
  }

  lemma DerivedCites(ix: EvidenceIndex, d: Draft)
    requires Grounded(ix) && Derived(ix, d)
    ensures exists id :: Cites(d, id)
  {
    if d.links != [] {
      assert d.links[0] in d.links;
      assert GroundedLink(ix, d.links[0]);
      assert d.links[0].evidence[0] in d.links[0].evidence;
      assert Cites(d, d.links[0].evidence[0]);
    } else {
      assert d.claims[0] in d.claims;
      assert Cites(d, d.claims[0].observation);
    }
  }

  /** One correlation a draft, in order. */
  ghost predicate BuiltEach(log: seq<Emission>, built: seq<Correlation>, ix: EvidenceIndex, naming: Naming)
  {
    |built| == |log| && forall i :: 0 <= i < |log| ==> Built(log[i].draft, log[i].kind, ix, naming) == Ok(built[i])
  }

  /** When every draft is derived, nothing is rejected and there is one correlation
      a draft, in order. */
  lemma {:induction false} NothingRejected(log: seq<Emission>, ix: EvidenceIndex, naming: Naming)
    requires Grounded(ix) && AllDerived(ix, log)
    ensures RejectedFrom(log, ix, naming) == []
    ensures BuiltEach(log, BuiltFrom(log, ix, naming), ix, naming)
  {
    if log != [] {
      var e := log[|log| - 1];
      assert e in log;
      NothingRejected(log[..|log| - 1], ix, naming);
      DerivedBuilds(ix, e.draft, e.kind, naming);
      BuiltLast(log, ix, naming);
      EachSnoc(log, BuiltFrom(log[..|log| - 1], ix, naming), Built(e.draft, e.kind, ix, naming).value, ix, naming);
    }
  }

  lemma BuiltLast(log: seq<Emission>, ix: EvidenceIndex, naming: Naming)
    requires log != [] && Built(log[|log| - 1].draft, log[|log| - 1].kind, ix, naming).Ok?
    ensures var init, e := log[..|log| - 1], log[|log| - 1];
      && BuiltFrom(log, ix, naming) == BuiltFrom(init, ix, naming) + [Built(e.draft, e.kind, ix, naming).value]
      && RejectedFrom(log, ix, naming) == RejectedFrom(init, ix, naming)
  {
  }

  lemma EachSnoc(log: seq<Emission>, before: seq<Correlation>, c: Correlation, ix: EvidenceIndex, naming: Naming)
    requires log != [] && BuiltEach(log[..|log| - 1], before, ix, naming)
    requires Built(log[|log| - 1].draft, log[|log| - 1].kind, ix, naming) == Ok(c)
    ensures BuiltEach(log, before + [c], ix, naming)
  {
    var init, built := log[..|log| - 1], before + [c];
    forall i | 0 <= i < |log| ensures Built(log[i].draft, log[i].kind, ix, naming) == Ok(built[i]) {
      if i < |init| { assert log[i] == init[i] && built[i] == before[i]; }
    }
  }
}
