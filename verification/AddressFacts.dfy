/** What the report of a sound investigation says about an address that a domain
    resolves to: its links, its conflicts, its gaps and its caveats. */
module AddressFacts {
  import opened Results
  import opened Ordering
  import opened Net
  import opened Model
  import opened Investigation
  import opened Index
  import opened IndexFacts
  import opened CorrelationIds
  import opened Drafts
  import opened Emissions
  import opened Infrastructure
  import opened Correlate
  import opened ReportFacts
  import opened DraftFacts
  import ConflictFacts
  import opened AddressConflicts

  predicate ContextKind(kind: RelationKind)
  {
    kind.AnnouncedBy? || kind.RegisteredIn?
  }

  /** The relationship says who announces the address or where it is registered. */
  ghost predicate IsContext(s: Store, address: Entity, l: Relationship)
  {
    l in s.relationships && ContextKind(l.edge.kind) && l.edge.source == address
  }

  ghost predicate Starts(s: Store, kind: RelationKind, address: Entity)
  {
    exists l :: l in s.relationships && l.edge.kind == kind && l.edge.source == address
  }

  /** The statuses of runs against the indicator that did not succeed, in order. */
  function NotSucceeded(ss: seq<SourceStatus>, ind: Indicator): (r: seq<SourceStatus>)
  {
    if ss == [] then []
    else (if ss[0].indicator == ind && !ss[0].outcome.Succeeded? then [ss[0]] else []) + NotSucceeded(ss[1..], ind)
  }

  /** One observation names two origins of the address. */
  ghost predicate NamesTwo(s: Store, address: Entity)
  {
    exists id, t, u :: t != u && ConflictFacts.Links(s, AnnouncedBy, address, id, t) && ConflictFacts.Links(s, AnnouncedBy, address, id, u)
  }

  /** The missing origin and the missing network are gaps, each with the runs against
      the address that did not succeed. */
  ghost predicate GapsTold(s: Store, gaps: seq<Gap>, address: Indicator, ip: IpAddr)
  {
    var missed := NotSucceeded(s.sources, address);
    gaps == (if Starts(s, AnnouncedBy, IndicatorEntity(address)) then [] else [NoOrigin(ip, missed)])
          + (if Starts(s, RegisteredIn, IndicatorEntity(address)) then [] else [NoNetwork(ip, missed)])
  }

  ghost predicate CaveatsTold(s: Store, c: Correlation, address: Entity)
  {
    Caveated(c, if NamesTwo(s, address) then [RoutingIsNotOwnership, MultipleOrigins] else [RoutingIsNotOwnership])
  }

  /** The correlation is about this resolution: it lists it and exactly the context of
      its address, and tells what is in conflict, what is missing and what the data do
      not show. */
  ghost predicate AboutResolution(s: Store, c: Correlation, r: Relationship)
  {
    var address := r.edge.target;
    && c.kind.DomainIpInfrastructure? && c.claims == [] && c.supporting == []
    && (forall l :: l in c.links <==> l == r || IsContext(s, address, l))
    && (forall x :: x in c.subjects <==>
          x == r.edge.source || x == address || exists l :: IsContext(s, address, l) && l.edge.target == x)
    && address.IndicatorEntity? && IpOf(address).Some? && GapsTold(s, c.gaps, address.indicator, IpOf(address).value)
    && CaveatsTold(s, c, address) && ConflictsTold(s, address, IpOf(address).value, c.conflicts)
  }

  // ---------------------------------------------------------------------- drafts

  lemma {:induction false} FilteredStatuses(ss: seq<SourceStatus>, p: SourceStatus -> bool, ind: Indicator)
    requires forall x :: p(x) <==> x.indicator == ind && !x.outcome.Succeeded?
    ensures Filter(ss, p) == NotSucceeded(ss, ind)
  {
    if ss != [] { FilteredStatuses(ss[1..], p, ind); }
  }

  lemma Unsuccessful(ix: EvidenceIndex, ind: Indicator)
    ensures UnsuccessfulSources(ix, ind) == NotSucceeded(ix.sources, ind)
  {
    FilteredStatuses(ix.sources, (s: SourceStatus) => s.indicator == ind && !s.outcome.Succeeded?, ind);
  }

  /** The context links of an address. */
  ghost function Context(ix: EvidenceIndex, address: Entity): (r: seq<Relationship>)
    requires Wired(ix)
  {
    From(ix, AnnouncedBy, address) + From(ix, RegisteredIn, address)
  }

  lemma ContextMembers(s: Store, address: Entity)
    requires Sound(s) && Wired(IndexOf(s))
    ensures forall l :: l in Context(IndexOf(s), address) <==> IsContext(s, address, l)
    ensures From(IndexOf(s), AnnouncedBy, address) == [] <==> !Starts(s, AnnouncedBy, address)
    ensures From(IndexOf(s), RegisteredIn, address) == [] <==> !Starts(s, RegisteredIn, address)
  {
    ConflictFacts.LinksFrom(s, AnnouncedBy, address);
    ConflictFacts.LinksFrom(s, RegisteredIn, address);
    SomeStarts(s, AnnouncedBy, address, From(IndexOf(s), AnnouncedBy, address));
    SomeStarts(s, RegisteredIn, address, From(IndexOf(s), RegisteredIn, address));
  }

  lemma SomeStarts(s: Store, kind: RelationKind, address: Entity, links: seq<Relationship>)
    requires forall l :: l in links <==> l in s.relationships && l.edge.kind == kind && l.edge.source == address
    ensures links == [] <==> !Starts(s, kind, address)
  {
    HeadIsMember(links);
  }

  lemma GapsOfDraft(s: Store, ip: IpAddr, address: Indicator, announced: seq<Relationship>, registered: seq<Relationship>)
    requires announced == [] <==> !Starts(s, AnnouncedBy, IndicatorEntity(address))
    requires registered == [] <==> !Starts(s, RegisteredIn, IndicatorEntity(address))
    ensures GapsTold(s, Gaps(IndexOf(s), ip, address, announced, registered), address, ip)
  {
    Unsuccessful(IndexOf(s), address);
  }

  lemma NamesTwoExactly(s: Store, address: Entity)
    requires Sound(s) && Wired(IndexOf(s))
    ensures NamesSeveral(PerObservation(From(IndexOf(s), AnnouncedBy, address))) <==> NamesTwo(s, address)
  {
    var links := From(IndexOf(s), AnnouncedBy, address);
    NamesSeveralExactly(links);
    ConflictFacts.LinksFrom(s, AnnouncedBy, address);
    if k, l, id :| k in links && l in links && id in k.evidence && id in l.evidence && k.edge.target != l.edge.target {
      LinkOf(s, links, AnnouncedBy, address, k, id);
      LinkOf(s, links, AnnouncedBy, address, l, id);
    }
    if id, t, u :| t != u && ConflictFacts.Links(s, AnnouncedBy, address, id, t) && ConflictFacts.Links(s, AnnouncedBy, address, id, u) {
      var k :| k in s.relationships && k.edge == Edge(AnnouncedBy, address, t) && id in k.evidence;
      var l :| l in s.relationships && l.edge == Edge(AnnouncedBy, address, u) && id in l.evidence;
      assert k in links && l in links;
    }
  }

  lemma LinkOf(s: Store, links: seq<Relationship>, kind: RelationKind, address: Entity, l: Relationship, id: ObservationId)
    requires forall x :: x in links <==> x in s.relationships && x.edge.kind == kind && x.edge.source == address
    requires l in links && id in l.evidence
    ensures ConflictFacts.Links(s, kind, address, id, l.edge.target)
  {
    assert l.edge == Edge(kind, address, l.edge.target);
  }

  lemma TargetMembers(links: seq<Relationship>)
    ensures forall x :: x in Targets(links) <==> exists l :: l in links && l.edge.target == x
  {
    forall x ensures x in Targets(links) <==> exists l :: l in links && l.edge.target == x {
      if x in Targets(links) {
        var i :| 0 <= i < |links| && Targets(links)[i] == x;
        assert links[i] in links;
      }
      if l :| l in links && l.edge.target == x {
        var i :| 0 <= i < |links| && links[i] == l;
        assert Targets(links)[i] == x;
      }
    }
  }

  lemma SubjectsOfDraft(s: Store, r: Relationship, context: seq<Relationship>)
    requires forall l :: l in context <==> IsContext(s, r.edge.target, l)
    ensures forall x :: x in [r.edge.source, r.edge.target] + Targets(context) <==>
                          x == r.edge.source || x == r.edge.target || exists l :: IsContext(s, r.edge.target, l) && l.edge.target == x
  {
    TargetMembers(context);
    assert forall x :: x in [r.edge.source, r.edge.target] + Targets(context) <==>
                         x == r.edge.source || x == r.edge.target || x in Targets(context);
  }

  lemma CaveatsOfDraft(s: Store, c: Correlation, address: Entity, several: bool)
    requires several <==> NamesTwo(s, address)
    requires Caveated(c, Infrastructure.Caveats(several))
    ensures CaveatsTold(s, c, address)
  {
  }

  lemma ContextIsPlain(ix: EvidenceIndex, r: Relationship, ip: IpAddr, subject: Indicator, announced: seq<Relationship>,
                       registered: seq<Relationship>)
    ensures ContextDraft(ix, r, ip, subject, announced, registered)
         == Draft([r.edge.source, r.edge.target] + Targets(announced + registered), [r] + (announced + registered), [], [],
                  Conflicts(ix, ip, announced, registered), Gaps(ix, ip, subject, announced, registered),
                  Infrastructure.Caveats(NamesSeveral(PerObservation(announced))))
  {
  }

  lemma CaveatsOnce(several: bool)
    ensures Once(Infrastructure.Caveats(several))
  {
  }

  lemma PlainContext(r: Relationship, context: seq<Relationship>, conflicts: seq<Conflict>, gaps: seq<Gap>, several: bool, c: Correlation)
    requires Carries(Draft([r.edge.source, r.edge.target] + Targets(context), [r] + context, [], [], conflicts, gaps,
                           Infrastructure.Caveats(several)), c)
    ensures forall l :: l in c.links <==> l == r || l in context
    ensures forall x :: x in c.subjects <==> x in [r.edge.source, r.edge.target] + Targets(context)
    ensures c.gaps == gaps && c.claims == [] && c.supporting == [] && Caveated(c, Infrastructure.Caveats(several))
    ensures SameConflicts(conflicts, c.conflicts)
  {
    CaveatsOnce(several);
    PlainCarried([r.edge.source, r.edge.target] + Targets(context), [r] + context, [], conflicts, gaps, Infrastructure.Caveats(several), c);
    Nothing(c.supporting);
  }

  lemma ContextSays(ix: EvidenceIndex, r: Relationship, ip: IpAddr, subject: Indicator, announced: seq<Relationship>,
                    registered: seq<Relationship>, c: Correlation)
    requires Carries(ContextDraft(ix, r, ip, subject, announced, registered), c)
    ensures forall l :: l in c.links <==> l == r || l in announced + registered
    ensures forall x :: x in c.subjects <==> x in [r.edge.source, r.edge.target] + Targets(announced + registered)
    ensures c.gaps == Gaps(ix, ip, subject, announced, registered) && c.claims == [] && c.supporting == []
    ensures Caveated(c, Infrastructure.Caveats(NamesSeveral(PerObservation(announced))))
    ensures SameConflicts(Conflicts(ix, ip, announced, registered), c.conflicts)
  {
    ContextIsPlain(ix, r, ip, subject, announced, registered);
    PlainContext(r, announced + registered, Conflicts(ix, ip, announced, registered), Gaps(ix, ip, subject, announced, registered),
                 NamesSeveral(PerObservation(announced)), c);
  }

  lemma SaysIsAbout(s: Store, r: Relationship, ip: IpAddr, c: Correlation, context: seq<Relationship>, several: bool)
    requires IpOf(r.edge.target) == Some(ip) && c.kind.DomainIpInfrastructure?
    requires forall l :: l in context <==> IsContext(s, r.edge.target, l)
    requires forall l :: l in c.links <==> l == r || l in context
    requires forall x :: x in c.subjects <==> x in [r.edge.source, r.edge.target] + Targets(context)
    requires GapsTold(s, c.gaps, r.edge.target.indicator, ip) && c.claims == [] && c.supporting == []
    requires several <==> NamesTwo(s, r.edge.target)
    requires Caveated(c, Infrastructure.Caveats(several))
    requires ConflictsTold(s, r.edge.target, ip, c.conflicts)
    ensures AboutResolution(s, c, r)
  {
    SubjectsOfDraft(s, r, context);
    CaveatsOfDraft(s, c, r.edge.target, several);
  }

  /** What a correlation says that carries the draft for a resolution. */
  lemma DraftIsAbout(s: Store, r: Relationship, ip: IpAddr, c: Correlation, announced: seq<Relationship>, registered: seq<Relationship>)
    requires Sound(s) && Wired(IndexOf(s)) && IpOf(r.edge.target) == Some(ip) && c.kind.DomainIpInfrastructure?
    requires announced == From(IndexOf(s), AnnouncedBy, r.edge.target) && registered == From(IndexOf(s), RegisteredIn, r.edge.target)
    requires Carries(ContextDraft(IndexOf(s), r, ip, r.edge.target.indicator, announced, registered), c)
    ensures AboutResolution(s, c, r)
  {
    var address := r.edge.target;
    ContextSays(IndexOf(s), r, ip, address.indicator, announced, registered, c);
    ContextMembers(s, address);
    GapsOfDraft(s, ip, address.indicator, announced, registered);
    NamesTwoExactly(s, address);
    CarriedTold(s, address, ip, c.conflicts);
    SaysIsAbout(s, r, ip, c, announced + registered, NamesSeveral(PerObservation(announced)));
  }

  // ---------------------------------------------------------------------- report

  lemma DraftedIsAbout(s: Store, naming: Naming, e: Emission, r: Relationship, c: Correlation)
    requires Sound(s) && Wired(IndexOf(s)) && Comes(s, naming, e, c) && DraftedFrom(IndexOf(s), r, e)
    ensures AboutResolution(s, c, r) && exists l :: IsContext(s, r.edge.target, l)
  {
    DraftCarried(s, naming, e, c);
    ContextMembers(s, r.edge.target);
    HeadIsMember(Context(IndexOf(s), r.edge.target));
    DraftIsAbout(s, r, IpOf(r.edge.target).value, c, From(IndexOf(s), AnnouncedBy, r.edge.target),
                 From(IndexOf(s), RegisteredIn, r.edge.target));
  }

  ghost predicate Resolution(s: Store, r: Relationship)
  {
    r in s.relationships && r.edge.kind == ResolvesTo && IpOf(r.edge.target).Some?
  }

  lemma ResolutionIndexed(s: Store, r: Relationship)
    requires Sound(s)
    ensures r in OfKind(IndexOf(s), ResolvesTo) <==> r in s.relationships && r.edge.kind == ResolvesTo
  {
    CanonicalList(s);
    SameMembers(IndexOf(s).relationships, s.relationships);
    OfKindMembers(IndexOf(s), ResolvesTo);
  }

  /** The report has a correlation about a resolution, with exactly the context of its
      address, exactly when there is such context. */
  lemma AddressReportedExactly(s: Store, naming: Naming, r: Relationship)
    requires Sound(s) && Named(s, naming) && Resolution(s, r)
    ensures (exists c :: c in ReportOf(s, naming).correlations && AboutResolution(s, c, r)) <==>
              exists l :: IsContext(s, r.edge.target, l)
  {
    IndexWired(s);
    if l :| IsContext(s, r.edge.target, l) { ContextIsReported(s, naming, r, l); }
    if c :| c in ReportOf(s, naming).correlations && AboutResolution(s, c, r) { AboutHasContext(s, naming, r, c); }
  }

  lemma AboutHasContext(s: Store, naming: Naming, r: Relationship, c: Correlation)
    requires Sound(s) && Resolution(s, r) && c in ReportOf(s, naming).correlations && AboutResolution(s, c, r)
    ensures exists l :: IsContext(s, r.edge.target, l)
  {
    var q := ReportedResolution(s, naming, c);
    var l :| IsContext(s, q.edge.target, l);
    SameContext(s, r, q, c, l);
  }

  lemma SameContext(s: Store, r: Relationship, q: Relationship, c: Correlation, l: Relationship)
    requires r.edge.kind == ResolvesTo && AboutResolution(s, c, r) && AboutResolution(s, c, q) && IsContext(s, q.edge.target, l)
    ensures IsContext(s, r.edge.target, l)
  {
    assert l in c.links;
  }

  lemma ContextIsDrafted(s: Store, r: Relationship, l: Relationship) returns (e: Emission)
    requires Sound(s) && Wired(IndexOf(s)) && Resolution(s, r) && IsContext(s, r.edge.target, l)
    ensures e in AllEmitted(IndexOf(s)) && DraftedFrom(IndexOf(s), r, e)
  {
    ContextMembers(s, r.edge.target);
    HasContext(IndexOf(s), r, l);
    e := Emission(DomainIpInfrastructure, DraftFor(IndexOf(s), r).value);
    assert DraftedFrom(IndexOf(s), r, e);
    ResolutionIndexed(s, r);
    OnlyInfrastructure(IndexOf(s), e);
    DraftedMembers(IndexOf(s), OfKind(IndexOf(s), ResolvesTo), e);
  }

  lemma HasContext(ix: EvidenceIndex, r: Relationship, l: Relationship)
    requires Wired(ix) && IpOf(r.edge.target).Some? && l in Context(ix, r.edge.target)
    ensures DraftFor(ix, r).Some?
  {
  }

  lemma ContextIsReported(s: Store, naming: Naming, r: Relationship, l: Relationship)
    requires Sound(s) && Named(s, naming) && Wired(IndexOf(s)) && Resolution(s, r) && IsContext(s, r.edge.target, l)
    ensures exists c :: c in ReportOf(s, naming).correlations && AboutResolution(s, c, r)
  {
    var e := ContextIsDrafted(s, r, l);
    var c := DraftReported(s, naming, e);
    DraftedIsAbout(s, naming, e, r, c);
  }

  /** Every correlation of this kind is about a resolution. */
  lemma ReportedResolution(s: Store, naming: Naming, c: Correlation) returns (r: Relationship)
    requires Sound(s) && c in ReportOf(s, naming).correlations && c.kind.DomainIpInfrastructure?
    ensures Resolution(s, r) && AboutResolution(s, c, r) && exists l :: IsContext(s, r.edge.target, l)
  {
    IndexWired(s);
    var e := DraftBehind(s, naming, c);
    assert Comes(s, naming, e, c);
    DraftCarried(s, naming, e, c);
    OnlyInfrastructure(IndexOf(s), e);
    DraftedMembers(IndexOf(s), OfKind(IndexOf(s), ResolvesTo), e);
    r :| r in OfKind(IndexOf(s), ResolvesTo) && DraftedFrom(IndexOf(s), r, e);
    ResolutionIndexed(s, r);
    DraftedIsAbout(s, naming, e, r, c);
  }
}
