/** The rule that groups indicators around one shared element
    (crates/correlation/src/rules/shared.rs). */
module Shared {
  import opened Results
  import opened Ordering
  import opened Model
  import opened Index
  import opened IndexFacts
  import opened CorrelationIds
  import opened Drafts
  import opened Emissions

  const MAX_CERTIFICATE_GROUPS: nat := 20

  // ------------------------------------------------------------------ grouping

  function EndSet(links: seq<Relationship>, atSource: bool): (r: set<Entity>)
  {
    set l | l in links :: End(l, atSource)
  }

  function Ending(links: seq<Relationship>, atSource: bool, e: Entity): (r: seq<Relationship>)
  {
    Filter(links, (l: Relationship) => End(l, atSource) == e)
  }

  ghost function Groups(links: seq<Relationship>, atSource: bool): (m: map<Entity, seq<Relationship>>)
  {
    map e | e in EndSet(links, atSource) :: Ending(links, atSource, e)
  }

  lemma GroupsStep(links: seq<Relationship>, atSource: bool, l: Relationship)
    ensures var m, e := Groups(links, atSource), End(l, atSource);
      Groups(links + [l], atSource) == m[e := (if e in m then m[e] else []) + [l]]
  {
    var m, e := Groups(links, atSource), End(l, atSource);
    var next, goal := Groups(links + [l], atSource), m[e := (if e in m then m[e] else []) + [l]];
    assert forall x :: x in links + [l] <==> x in links || x == l;
    assert EndSet(links + [l], atSource) == EndSet(links, atSource) + {e};
    assert next.Keys == goal.Keys;
    forall k | k in next ensures next[k] == goal[k] {
      EndingStep(links, atSource, l, k);
      if k !in m { NoneEnding(links, atSource, k); }
    }
  }

  lemma EndingStep(links: seq<Relationship>, atSource: bool, l: Relationship, e: Entity)
    ensures Ending(links + [l], atSource, e) == if End(l, atSource) == e then Ending(links, atSource, e) + [l] else Ending(links, atSource, e)
  {
    var p := (x: Relationship) => End(x, atSource) == e;
    FilterConcat(links, [l], p);
    assert Filter([l][1..], p) == [];
    assert Ending(links, atSource, e) + [] == Ending(links, atSource, e);
  }

  lemma NoneEnding(links: seq<Relationship>, atSource: bool, e: Entity)
    requires e !in EndSet(links, atSource)
    ensures Ending(links, atSource, e) == []
  {
    forall l | l in links ensures End(l, atSource) != e { assert End(l, atSource) in EndSet(links, atSource); }
    FilterNone(links, (l: Relationship) => End(l, atSource) == e);
  }

  method GroupLinks(links: seq<Relationship>, atSource: bool) returns (m: map<Entity, seq<Relationship>>)
    ensures m == Groups(links, atSource)
  {
    m := map[];
    for i := 0 to |links|
      invariant m == Groups(links[..i], atSource)
    {
      GroupsStep(links[..i], atSource, links[i]);
      assert links[..i + 1] == links[..i] + [links[i]];
      var e := End(links[i], atSource);
      m := m[e := (if e in m then m[e] else []) + [links[i]]];
    }
    assert links[..|links|] == links;
  }

  // -------------------------------------------------------------------- drafts

  ghost function GroupDraft(shared: Entity, members: set<Entity>, links: seq<Relationship>): (d: Draft)
  {
    Draft([shared] + Ascending(members, EntityKey), links, [], [], [], [], [SharingIsNotAttribution])
  }

  method EmitGroup(shared: Entity, members: set<Entity>, links: seq<Relationship>, emit: Emit)
    requires emit.Valid()
    modifies emit
    ensures emit.Valid() && emit.log == old(emit.log) + [Emission(SharedInfrastructure, GroupDraft(shared, members, links))]
  {
    forall a: Entity, b: Entity | EntityKey(a) == EntityKey(b) ensures a == b { EntityKeyInjective(a, b); }
    var listed := ListAscending(members, EntityKey);
    emit.Push(SharedInfrastructure, Draft([shared] + listed, links, [], [], [], [], [SharingIsNotAttribution]));
  }

  /** The other ends of the links of an element. */
  function Members(links: seq<Relationship>, atSource: bool, e: Entity): (r: set<Entity>)
  {
    EndSet(Ending(links, atSource, e), !atSource)
  }

  ghost function GroupFor(links: seq<Relationship>, e: Entity): (r: Option<Draft>)
  {
    var members := Members(links, false, e);
    if |members| >= 2 then Some(GroupDraft(e, members, Ending(links, false, e))) else None
  }

  ghost function GroupsUpTo(links: seq<Relationship>, shared: seq<Entity>, n: nat): (r: seq<Emission>)
    requires n <= |shared|
  {
    if n == 0 then []
    else GroupsUpTo(links, shared, n - 1) + Emitting(SharedInfrastructure, GroupFor(links, shared[n - 1]))
  }

  ghost function TargetGroups(links: seq<Relationship>): (r: seq<Emission>)
  {
    var shared := Ascending(EndSet(links, false), EntityKey);
    GroupsUpTo(links, shared, |shared|)
  }

  method EmitIfShared(links: seq<Relationship>, e: Entity, group: seq<Relationship>, emit: Emit)
    requires emit.Valid() && group == Ending(links, false, e)
    modifies emit
    ensures emit.Valid() && emit.log == old(emit.log) + Emitting(SharedInfrastructure, GroupFor(links, e))
  {
    var members := EndSet(group, true);
    if |members| >= 2 { EmitGroup(e, members, group, emit); }
  }

  ghost function GroupParts(links: seq<Relationship>, shared: seq<Entity>): (r: seq<seq<Emission>>)
  {
    seq(|shared|, i requires 0 <= i < |shared| => Emitting(SharedInfrastructure, GroupFor(links, shared[i])))
  }

  ghost function GroupStages(links: seq<Relationship>, shared: seq<Entity>): (r: seq<seq<Emission>>)
  {
    seq(|shared| + 1, i requires 0 <= i <= |shared| => GroupsUpTo(links, shared, i))
  }

  lemma GroupsStaged(links: seq<Relationship>, shared: seq<Entity>)
    ensures var stages, parts := GroupStages(links, shared), GroupParts(links, shared);
      && |parts| == |shared| && Staged(stages, parts) && stages[|shared|] == GroupsUpTo(links, shared, |shared|)
      && forall i :: 0 <= i < |shared| ==> parts[i] == Emitting(SharedInfrastructure, GroupFor(links, shared[i]))
  {
  }

  /** The elements in order, each with its links. */
  method EmitGroups(links: seq<Relationship>, shared: seq<Entity>, groups: map<Entity, seq<Relationship>>, emit: Emit,
                    ghost stages: seq<seq<Emission>>, ghost parts: seq<seq<Emission>>)
    requires emit.Valid() && groups == Groups(links, false)
    requires forall i :: 0 <= i < |shared| ==> shared[i] in groups
    requires |parts| == |shared| && Staged(stages, parts)
    requires forall i :: 0 <= i < |shared| ==> parts[i] == Emitting(SharedInfrastructure, GroupFor(links, shared[i]))
    modifies emit
    ensures emit.Valid() && emit.log == old(emit.log) + stages[|shared|]
  {
    ghost var before := emit.log;
    for i := 0 to |shared|
      invariant emit.Valid() && emit.log == before + stages[i]
    {
      EmitIfShared(links, shared[i], groups[shared[i]], emit);
      Appends(before, stages[i], parts[i]);
    }
  }

  method EmitTargetGroups(links: seq<Relationship>, emit: Emit)
    requires emit.Valid()
    modifies emit
    ensures emit.Valid() && emit.log == old(emit.log) + TargetGroups(links)
  {
    var groups := GroupLinks(links, false);
    assert groups.Keys == EndSet(links, false);
    var shared := ListEntities(groups.Keys);
    GroupsStaged(links, shared);
    EmitGroups(links, shared, groups, emit, GroupStages(links, shared), GroupParts(links, shared));
  }

  method ListEntities(es: set<Entity>) returns (r: seq<Entity>)
    ensures r == Ascending(es, EntityKey) && forall i :: 0 <= i < |r| ==> r[i] in es
  {
    forall a: Entity, b: Entity | EntityKey(a) == EntityKey(b) ensures a == b { EntityKeyInjective(a, b); }
    r := ListAscending(es, EntityKey);
    assert forall i :: 0 <= i < |r| ==> r[i] in r;
  }

  // -------------------------------------------------------------- certificates

  /** Certificates with more names come first, equal ones in entity order. */
  function Rank(links: seq<Relationship>, cert: Entity): (k: Key)
  {
    [[-|Members(links, true, cert)|], EntityCode(cert)]
  }

  function RankBy(links: seq<Relationship>): (f: Entity -> Key)
  {
    (cert: Entity) => Rank(links, cert)
  }

  predicate ListsSeveral(links: seq<Relationship>, cert: Entity)
  {
    |Members(links, true, cert)| >= 2
  }

  function SelectSeveral(links: seq<Relationship>, certs: seq<Entity>): (r: seq<Entity>)
  {
    Filter(certs, (cert: Entity) => ListsSeveral(links, cert))
  }

  /** Certificates listing several names, best first. */
  ghost function Ranked(links: seq<Relationship>): (r: seq<Entity>)
  {
    SortBy(SelectSeveral(links, Ascending(EndSet(links, true), EntityKey)), RankBy(links))
  }

  function Kept(ranked: seq<Entity>): (r: seq<Entity>)
  {
    if |ranked| <= MAX_CERTIFICATE_GROUPS then ranked else ranked[..MAX_CERTIFICATE_GROUPS]
  }

  ghost function CertificateGroups(links: seq<Relationship>, certs: seq<Entity>): (r: seq<Emission>)
  {
    seq(|certs|, i requires 0 <= i < |certs| => CertificateGroup(links, certs[i]))
  }

  method EmitCertificates(links: seq<Relationship>, emit: Emit) returns (total: nat)
    requires emit.Valid()
    modifies emit
    ensures emit.Valid() && emit.log == old(emit.log) + CertificateGroups(links, Kept(Ranked(links)))
    ensures total == |Ranked(links)|
  {
    var groups := GroupLinks(links, true);
    forall a: Entity, b: Entity | EntityKey(a) == EntityKey(b) ensures a == b { EntityKeyInjective(a, b); }
    assert groups.Keys == EndSet(links, true);
    var all := ListAscending(groups.Keys, EntityKey);
    var ranked := SortBy(SelectSeveral(links, all), RankBy(links));
    total := |ranked|;
    var kept := Kept(ranked);
    KeptAreCertificates(links, kept);
    EmitKept(links, groups, kept, emit);
  }

  ghost function CertificateGroup(links: seq<Relationship>, cert: Entity): (e: Emission)
  {
    Emission(SharedInfrastructure, GroupDraft(cert, Members(links, true, cert), Ending(links, true, cert)))
  }

  method EmitKept(links: seq<Relationship>, groups: map<Entity, seq<Relationship>>, kept: seq<Entity>, emit: Emit)
    requires emit.Valid() && groups == Groups(links, true)
    requires forall i :: 0 <= i < |kept| ==> kept[i] in groups
    modifies emit
    ensures emit.Valid() && emit.log == old(emit.log) + CertificateGroups(links, kept)
  {
    for i := 0 to |kept|
      invariant emit.Valid() && emit.log == old(emit.log) + CertificateGroups(links, kept[..i])
    {
      EmitGroup(kept[i], EndSet(groups[kept[i]], false), groups[kept[i]], emit);
      CertificateGroupsStep(links, kept, i);
      Appends(old(emit.log), CertificateGroups(links, kept[..i]), [CertificateGroup(links, kept[i])]);
    }
    assert kept[..|kept|] == kept;
  }

  lemma CertificateGroupsStep(links: seq<Relationship>, kept: seq<Entity>, i: nat)
    requires i < |kept|
    ensures CertificateGroups(links, kept[..i + 1]) == CertificateGroups(links, kept[..i]) + [CertificateGroup(links, kept[i])]
  {
  }

  lemma KeptAreCertificates(links: seq<Relationship>, kept: seq<Entity>)
    requires kept == Kept(Ranked(links))
    ensures forall i :: 0 <= i < |kept| ==> kept[i] in EndSet(links, true)
  {
    RankedMembers(links);
    forall i | 0 <= i < |kept| ensures kept[i] in EndSet(links, true) {
      assert kept[i] == Ranked(links)[i];
      assert Ranked(links)[i] in Ranked(links);
    }
  }

  lemma RankedMembers(links: seq<Relationship>)
    ensures forall cert :: cert in Ranked(links) <==> cert in EndSet(links, true) && ListsSeveral(links, cert)
    ensures Sorted(Ranked(links), RankBy(links))
  {
    var all := Ascending(EndSet(links, true), EntityKey);
    FilterMembers(all, (cert: Entity) => ListsSeveral(links, cert));
    SortBySorts(SelectSeveral(links, all), RankBy(links));
  }

  // ---------------------------------------------------------------------- rule

  function Covering(ix: EvidenceIndex): (r: seq<Relationship>)
  {
    OfKind(ix, CoversName) + OfKind(ix, CoversWildcard)
  }

  ghost function Emitted(ix: EvidenceIndex): (r: seq<Emission>)
  {
    TargetGroups(OfKind(ix, AnnouncedBy)) + TargetGroups(OfKind(ix, RegisteredIn))
    + TargetGroups(OfKind(ix, ResolvesTo)) + CertificateGroups(Covering(ix), Kept(Ranked(Covering(ix))))
  }

  /** Set when certificates were left out: how many are reported, and of how many. */
  ghost function Truncation(ix: EvidenceIndex): (r: Option<nat>)
  {
    var total := |Ranked(Covering(ix))|;
    if total > MAX_CERTIFICATE_GROUPS then Some(total) else None
  }

  method Correlate(emit: Emit) returns (truncated: Option<nat>)
    requires emit.Valid()
    modifies emit
    ensures emit.Valid() && emit.log == old(emit.log) + Emitted(emit.ix)
    ensures truncated == Truncation(emit.ix)
  {
    var ix := emit.ix;
    EmitTargetGroups(OfKind(ix, AnnouncedBy), emit);
    EmitTargetGroups(OfKind(ix, RegisteredIn), emit);
    EmitTargetGroups(OfKind(ix, ResolvesTo), emit);
    var total := EmitCertificates(Covering(ix), emit);
    FourParts(old(emit.log), TargetGroups(OfKind(ix, AnnouncedBy)), TargetGroups(OfKind(ix, RegisteredIn)),
              TargetGroups(OfKind(ix, ResolvesTo)), CertificateGroups(Covering(ix), Kept(Ranked(Covering(ix)))));
    truncated := if total > MAX_CERTIFICATE_GROUPS then Some(total) else None;
  }

  lemma FourParts(s: seq<Emission>, a: seq<Emission>, b: seq<Emission>, c: seq<Emission>, d: seq<Emission>)
    ensures s + a + b + c + d == s + (a + b + c + d)
  {
  }

  // ------------------------------------------------------------------- meaning

  lemma EndingMembers(links: seq<Relationship>, atSource: bool, e: Entity)
    ensures forall l :: l in Ending(links, atSource, e) <==> l in links && End(l, atSource) == e
  {
    FilterMembers(links, (l: Relationship) => End(l, atSource) == e);
  }

  lemma SeveralMembers(links: seq<Relationship>, e: Entity)
    ensures |Members(links, false, e)| > 1 <==>
              exists k, l :: k in links && l in links && k.edge.target == e && l.edge.target == e && k.edge.source != l.edge.source
  {
    EndingMembers(links, false, e);
    var members, group := Members(links, false, e), Ending(links, false, e);
    TwoMembers(members);
    if x, y :| x in members && y in members && x != y {
      var k :| k in group && End(k, true) == x;
      var l :| l in group && End(l, true) == y;
    }
    if k, l :| k in links && l in links && k.edge.target == e && l.edge.target == e && k.edge.source != l.edge.source {
      assert k in group && l in group;
      assert End(k, true) in members && End(l, true) in members;
    }
  }

  /** An element is reported as shared exactly when two of its links lead to
      different members; the group then lists all its members and all its links. */
  lemma GroupExactly(links: seq<Relationship>, e: Entity)
    ensures GroupFor(links, e).Some? <==>
              exists k, l :: k in links && l in links && k.edge.target == e && l.edge.target == e && k.edge.source != l.edge.source
    ensures GroupFor(links, e).Some? ==>
              (forall l :: l in GroupFor(links, e).value.links <==> l in links && l.edge.target == e)
  {
    SeveralMembers(links, e);
    EndingMembers(links, false, e);
  }

  /** The certificates reported list at least as many names as each one left out,
      and as many are reported as the bound allows. */
  lemma KeptListMost(links: seq<Relationship>, i: nat, j: nat)
    requires i < |Kept(Ranked(links))| <= j < |Ranked(links)|
    ensures |Members(links, true, Ranked(links)[i])| >= |Members(links, true, Ranked(links)[j])|
    ensures |Kept(Ranked(links))| == MAX_CERTIFICATE_GROUPS
  {
    RankedMembers(links);
    var r := Ranked(links);
    assert KeyLe(RankBy(links)(r[i]), RankBy(links)(r[j]));
    var x, y := Rank(links, r[i])[0], Rank(links, r[j])[0];
    assert x == y || LexLe(x, y);
  }

  // -------------------------------------------------------------- no new facts

  ghost predicate LinkedEnds(links: seq<Relationship>, e: Entity)
  {
    exists l :: l in links && (l.edge.source == e || l.edge.target == e)
  }

  lemma GroupDerived(ix: EvidenceIndex, e: Entity, members: set<Entity>, links: seq<Relationship>)
    requires Grounded(ix) && ExistingLinks(ix, links) && links != []
    requires LinkedEnds(links, e) && forall m :: m in members ==> LinkedEnds(links, m)
    ensures Derived(ix, GroupDraft(e, members, links))
  {
    var d := GroupDraft(e, members, links);
    forall s | s in d.subjects ensures KnowsEntity(ix, s) {
      assert s == e || s in Ascending(members, EntityKey);
      assert LinkedEnds(links, s);
      var l :| l in links && (l.edge.source == s || l.edge.target == s);
      assert GroundedLink(ix, l);
    }
  }

  lemma MembersLinked(links: seq<Relationship>, atSource: bool, e: Entity)
    requires Members(links, atSource, e) != {}
    ensures Ending(links, atSource, e) != [] && LinkedEnds(Ending(links, atSource, e), e)
    ensures forall m :: m in Members(links, atSource, e) ==> LinkedEnds(Ending(links, atSource, e), m)
  {
    EndingMembers(links, atSource, e);
    var group := Ending(links, atSource, e);
    var l :| l in group;
    assert End(l, atSource) == e;
  }

  lemma GroupOfDerived(ix: EvidenceIndex, links: seq<Relationship>, atSource: bool, e: Entity)
    requires Grounded(ix) && ExistingLinks(ix, links) && Members(links, atSource, e) != {}
    ensures Derived(ix, GroupDraft(e, Members(links, atSource, e), Ending(links, atSource, e)))
  {
    MembersLinked(links, atSource, e);
    EndingMembers(links, atSource, e);
    GroupDerived(ix, e, Members(links, atSource, e), Ending(links, atSource, e));
  }

  lemma GroupForDerived(ix: EvidenceIndex, links: seq<Relationship>, e: Entity)
    requires Grounded(ix) && ExistingLinks(ix, links)
    ensures AllDerived(ix, Emitting(SharedInfrastructure, GroupFor(links, e)))
  {
    if |Members(links, false, e)| >= 2 { GroupOfDerived(ix, links, false, e); }
  }

  lemma TargetGroupsDerived(ix: EvidenceIndex, links: seq<Relationship>)
    requires Grounded(ix) && ExistingLinks(ix, links)
    ensures AllDerived(ix, TargetGroups(links))
  {
    var shared := Ascending(EndSet(links, false), EntityKey);
    var parts := GroupParts(links, shared);
    forall i | 0 <= i < |parts| ensures AllDerived(ix, parts[i]) { GroupForDerived(ix, links, shared[i]); }
    GroupsStaged(links, shared);
    StagesDerived(ix, GroupStages(links, shared), parts, |shared|);
  }

  lemma CertificatesDerived(ix: EvidenceIndex, links: seq<Relationship>)
    requires Grounded(ix) && ExistingLinks(ix, links)
    ensures AllDerived(ix, CertificateGroups(links, Kept(Ranked(links))))
  {
    RankedMembers(links);
    var kept := Kept(Ranked(links));
    forall i | 0 <= i < |kept| ensures Derived(ix, CertificateGroups(links, kept)[i].draft) {
      assert kept[i] == Ranked(links)[i] && Ranked(links)[i] in Ranked(links);
      GroupOfDerived(ix, links, true, kept[i]);
    }
  }

  lemma KindDerived(ix: EvidenceIndex, kind: RelationKind)
    requires Grounded(ix)
    ensures ExistingLinks(ix, OfKind(ix, kind)) && AllDerived(ix, TargetGroups(OfKind(ix, kind)))
  {
    OfKindMembers(ix, kind);
    TargetGroupsDerived(ix, OfKind(ix, kind));
  }

  /** No draft of this rule states a new fact. */
  lemma EmittedDerived(ix: EvidenceIndex)
    requires Grounded(ix)
    ensures AllDerived(ix, Emitted(ix))
  {
    var a, b, c := TargetGroups(OfKind(ix, AnnouncedBy)), TargetGroups(OfKind(ix, RegisteredIn)), TargetGroups(OfKind(ix, ResolvesTo));
    KindDerived(ix, AnnouncedBy);
    KindDerived(ix, RegisteredIn);
    KindDerived(ix, ResolvesTo);
    KindDerived(ix, CoversName);
    KindDerived(ix, CoversWildcard);
    CertificatesDerived(ix, Covering(ix));
    DerivedConcat(ix, a, b);
    DerivedConcat(ix, a + b, c);
    DerivedConcat(ix, a + b + c, CertificateGroups(Covering(ix), Kept(Ranked(Covering(ix)))));
  }
}
