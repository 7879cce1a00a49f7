/** Which shared elements stand in the report of a sound investigation, in terms of
    the relationships it holds. */
module GroupFacts {
  import opened Results
  import opened Ordering
  import opened Model
  import opened Investigation
  import opened Index
  import opened IndexFacts
  import opened CorrelationIds
  import opened Drafts
  import opened Emissions
  import opened Shared
  import opened Correlate
  import opened ReportFacts
  import opened DraftFacts

  // ------------------------------------------------------------ elements joined to

  /** A stored relationship of this kind leads from `m` to `x`. */
  ghost predicate Joined(s: Store, kind: RelationKind, m: Entity, x: Entity)
  {
    exists l :: l in s.relationships && l.edge == Edge(kind, m, x)
  }

  /** The only caveats are that sharing attributes nothing, and the one about
      different times. */
  ghost predicate OnlySharing(c: Correlation)
  {
    Caveated(c, [SharingIsNotAttribution])
  }

  /** The correlation has links alone to go by. */
  ghost predicate Bare(c: Correlation)
  {
    c.claims == [] && c.supporting == [] && c.conflicts == [] && c.gaps == [] && OnlySharing(c)
  }

  /** The correlation is about `x` and everything joined to it by links of this kind,
      and lists exactly these links. */
  ghost predicate AroundElement(s: Store, c: Correlation, kind: RelationKind, x: Entity)
  {
    && c.kind.SharedInfrastructure? && Bare(c)
    && (forall y :: y in c.subjects <==> y == x || Joined(s, kind, y, x))
    && (forall l :: l in c.links <==> l in s.relationships && l.edge.kind == kind && l.edge.target == x)
  }

  lemma SameLinks(s: Store)
    requires Sound(s)
    ensures forall l :: l in IndexOf(s).relationships <==> l in s.relationships
  {
    CanonicalList(s);
    SameMembers(IndexOf(s).relationships, s.relationships);
  }

  lemma LinksTo(s: Store, kind: RelationKind, x: Entity)
    requires Sound(s)
    ensures forall l :: l in Ending(OfKind(IndexOf(s), kind), false, x) <==>
                          l in s.relationships && l.edge.kind == kind && l.edge.target == x
  {
    SameLinks(s);
    OfKindMembers(IndexOf(s), kind);
    EndingMembers(OfKind(IndexOf(s), kind), false, x);
  }

  lemma MembersAmong(s: Store, links: seq<Relationship>, group: seq<Relationship>, kind: RelationKind, x: Entity)
    requires group == Ending(links, false, x)
    requires forall l :: l in group <==> l in s.relationships && l.edge.kind == kind && l.edge.target == x
    ensures forall y :: y in Members(links, false, x) <==> Joined(s, kind, y, x)
  {
    forall y ensures y in Members(links, false, x) <==> Joined(s, kind, y, x) {
      if l :| l in s.relationships && l.edge == Edge(kind, y, x) { assert l in group && End(l, true) == y; }
      if y in Members(links, false, x) {
        var l :| l in group && End(l, true) == y;
        assert l.edge == Edge(kind, y, x);
      }
    }
  }

  lemma MembersJoined(s: Store, kind: RelationKind, x: Entity)
    requires Sound(s)
    ensures forall y :: y in Members(OfKind(IndexOf(s), kind), false, x) <==> Joined(s, kind, y, x)
  {
    LinksTo(s, kind, x);
    MembersAmong(s, OfKind(IndexOf(s), kind), Ending(OfKind(IndexOf(s), kind), false, x), kind, x);
  }

  lemma GroupSays(x: Entity, members: set<Entity>, links: seq<Relationship>, c: Correlation)
    requires Carries(GroupDraft(x, members, links), c)
    ensures Bare(c) && (forall y :: y in c.subjects <==> y == x || y in members)
    ensures forall l :: l in c.links <==> l in links
  {
    GroupSubjects(x, members, links);
    assert Once([SharingIsNotAttribution]);
    Nothing(c.claims);
    Nothing(c.supporting);
  }

  lemma GroupIsAround(s: Store, naming: Naming, kind: RelationKind, x: Entity, e: Emission, c: Correlation)
    requires Sound(s) && Wired(IndexOf(s)) && Comes(s, naming, e, c) && GroupedAt(IndexOf(s), kind, x, e)
    ensures AroundElement(s, c, kind, x)
  {
    var links := OfKind(IndexOf(s), kind);
    DraftCarried(s, naming, e, c);
    GroupSays(x, Members(links, false, x), Ending(links, false, x), c);
    LinksTo(s, kind, x);
    MembersJoined(s, kind, x);
  }

  lemma TwoJoined(s: Store, kind: RelationKind, x: Entity)
    requires Sound(s)
    ensures GroupFor(OfKind(IndexOf(s), kind), x).Some? <==> exists m, n :: m != n && Joined(s, kind, m, x) && Joined(s, kind, n, x)
  {
    var members := Members(OfKind(IndexOf(s), kind), false, x);
    MembersJoined(s, kind, x);
    TwoMembers(members);
  }

  ghost predicate FormsGroup(s: Store, kind: RelationKind, x: Entity)
  {
    GroupFor(OfKind(IndexOf(s), kind), x).Some?
  }

  /** The report has a correlation about an element and exactly what is joined to it,
      by relationships that say who announces an address, in which network it is
      registered, or to which address a name resolves, exactly when two different
      members are joined to it. */
  lemma GroupReportedExactly(s: Store, naming: Naming, kind: RelationKind, x: Entity)
    requires Sound(s) && Named(s, naming) && GroupedKind(kind)
    ensures (exists c :: c in ReportOf(s, naming).correlations && AroundElement(s, c, kind, x)) <==>
              exists m, n :: m != n && Joined(s, kind, m, x) && Joined(s, kind, n, x)
  {
    IndexWired(s);
    TwoJoined(s, kind, x);
    if FormsGroup(s, kind, x) { GroupIsReported(s, naming, kind, x); }
    if c :| c in ReportOf(s, naming).correlations && AroundElement(s, c, kind, x) {
      ReportedIsGroup(s, naming, kind, x, c);
    }
  }

  lemma ReportedIsGroup(s: Store, naming: Naming, kind: RelationKind, x: Entity, c: Correlation)
    requires Sound(s) && Wired(IndexOf(s)) && GroupedKind(kind)
    requires c in ReportOf(s, naming).correlations && AroundElement(s, c, kind, x)
    ensures FormsGroup(s, kind, x)
  {
    SharedFrom(s, naming, c);
    AroundIsGroup(s, kind, x, c, c.links[0]);
  }

  lemma GroupIsReported(s: Store, naming: Naming, kind: RelationKind, x: Entity)
    requires Sound(s) && Named(s, naming) && GroupedKind(kind) && Wired(IndexOf(s))
    requires GroupFor(OfKind(IndexOf(s), kind), x).Some?
    ensures exists c :: c in ReportOf(s, naming).correlations && AroundElement(s, c, kind, x)
  {
    var e := Emission(SharedInfrastructure, GroupFor(OfKind(IndexOf(s), kind), x).value);
    assert GroupedAt(IndexOf(s), kind, x, e);
    SharedMembers(IndexOf(s), e);
    var c := DraftReported(s, naming, e);
    GroupIsAround(s, naming, kind, x, e, c);
  }

  lemma SharedHasLinks(ix: EvidenceIndex, e: Emission)
    requires Grounded(ix) && e in AllEmitted(ix) && e.draft.claims == []
    ensures e.draft.links != []
  {
    EverythingDerived(ix);
  }

  /** A correlation about a shared element is about a group of links to it, or about a
      certificate that was kept. */
  ghost predicate SharedSays(s: Store, c: Correlation)
  {
    || (exists k, y :: GroupedKind(k) && FormsGroup(s, k, y) && AroundElement(s, c, k, y))
    || (exists y :: KeptCertificate(IndexOf(s), y) && AroundCertificate(s, c, y))
  }

  lemma SharedComes(s: Store, naming: Naming, e: Emission, c: Correlation)
    requires Sound(s) && Wired(IndexOf(s)) && Comes(s, naming, e, c) && e.kind.SharedInfrastructure?
    ensures SharedSays(s, c)
  {
    SharedMembers(IndexOf(s), e);
    if GroupedDraft(IndexOf(s), e) {
      var k, y :| GroupedKind(k) && GroupedAt(IndexOf(s), k, y, e);
      GroupIsAround(s, naming, k, y, e, c);
      assert FormsGroup(s, k, y);
    } else {
      var y :| KeptCertificate(IndexOf(s), y) && e == CertificateGroup(Covering(IndexOf(s)), y);
      CertificateIsAround(s, naming, y, e, c);
    }
  }

  lemma SharedFrom(s: Store, naming: Naming, c: Correlation)
    requires Sound(s) && Wired(IndexOf(s)) && c in ReportOf(s, naming).correlations && c.kind.SharedInfrastructure?
    ensures SharedSays(s, c) && c.links != []
  {
    var e := DraftBehind(s, naming, c);
    assert Comes(s, naming, e, c);
    DraftCarried(s, naming, e, c);
    SharedComes(s, naming, e, c);
    IndexIsGrounded(s);
    LinksCome(IndexOf(s), e, c);
  }

  lemma LinksCome(ix: EvidenceIndex, e: Emission, c: Correlation)
    requires Grounded(ix) && e in AllEmitted(ix) && Carries(e.draft, c) && c.claims == []
    ensures c.links != []
  {
    Nothing(e.draft.claims);
    SharedHasLinks(ix, e);
    assert e.draft.links[0] in e.draft.links;
  }

  lemma AroundIsGroup(s: Store, kind: RelationKind, x: Entity, c: Correlation, l: Relationship)
    requires GroupedKind(kind) && SharedSays(s, c) && AroundElement(s, c, kind, x) && l in c.links
    ensures FormsGroup(s, kind, x)
  {
  }

  // ------------------------------------------------------------------ certificates

  predicate Covers(kind: RelationKind)
  {
    kind.CoversName? || kind.CoversWildcard?
  }

  /** The certificate lists this name, as such or by a wildcard. */
  ghost predicate Lists(s: Store, x: Entity, n: Entity)
  {
    exists l :: l in s.relationships && Covers(l.edge.kind) && l.edge.source == x && l.edge.target == n
  }

  /** The names a certificate lists. */
  ghost function NamesOn(s: Store, x: Entity): (r: set<Entity>)
  {
    set l | l in s.relationships && Covers(l.edge.kind) && l.edge.source == x :: l.edge.target
  }

  /** The certificates that list two names or more. */
  ghost function Several(s: Store): (r: set<Entity>)
  {
    set l | l in s.relationships && Covers(l.edge.kind) && |NamesOn(s, l.edge.source)| >= 2 :: l.edge.source
  }

  /** It lists more names, or as many and stands before in the order of entities. */
  ghost predicate RanksBefore(s: Store, y: Entity, x: Entity)
  {
    || |NamesOn(s, y)| > |NamesOn(s, x)|
    || (|NamesOn(s, y)| == |NamesOn(s, x)| && y != x && KeyLe(EntityKey(y), EntityKey(x)))
  }

  /** It lists several names, and fewer certificates that do so rank before it than
      are reported. */
  ghost predicate KeptByRank(s: Store, x: Entity)
  {
    x in Several(s) && |set y | y in Several(s) && RanksBefore(s, y, x)| < MAX_CERTIFICATE_GROUPS
  }

  ghost predicate AroundCertificate(s: Store, c: Correlation, x: Entity)
  {
    && c.kind.SharedInfrastructure? && Bare(c)
    && (forall y :: y in c.subjects <==> y == x || Lists(s, x, y))
    && (forall l :: l in c.links <==> l in s.relationships && Covers(l.edge.kind) && l.edge.source == x)
  }

  lemma CoveringMembers(s: Store)
    requires Sound(s)
    ensures forall l :: l in Covering(IndexOf(s)) <==> l in s.relationships && Covers(l.edge.kind)
  {
    SameLinks(s);
    OfKindMembers(IndexOf(s), CoversName);
    OfKindMembers(IndexOf(s), CoversWildcard);
  }

  lemma ListedMembers(s: Store, x: Entity)
    requires Sound(s)
    ensures forall l :: l in Ending(Covering(IndexOf(s)), true, x) <==>
                          l in s.relationships && Covers(l.edge.kind) && l.edge.source == x
    ensures Members(Covering(IndexOf(s)), true, x) == NamesOn(s, x)
    ensures forall n :: n in NamesOn(s, x) <==> Lists(s, x, n)
  {
    CoveringMembers(s);
    EndingMembers(Covering(IndexOf(s)), true, x);
    var links := Ending(Covering(IndexOf(s)), true, x);
    forall n ensures n in Members(Covering(IndexOf(s)), true, x) <==> n in NamesOn(s, x) {
      if n in NamesOn(s, x) {
        var l :| l in s.relationships && Covers(l.edge.kind) && l.edge.source == x && l.edge.target == n;
        assert l in links && End(l, false) == n;
      }
    }
  }

  lemma CertificateIsAround(s: Store, naming: Naming, x: Entity, e: Emission, c: Correlation)
    requires Sound(s) && Wired(IndexOf(s)) && Comes(s, naming, e, c) && e == CertificateGroup(Covering(IndexOf(s)), x)
    ensures AroundCertificate(s, c, x)
  {
    var links := Covering(IndexOf(s));
    DraftCarried(s, naming, e, c);
    GroupSays(x, Members(links, true, x), Ending(links, true, x), c);
    ListedMembers(s, x);
  }

  lemma SeveralRanked(s: Store)
    requires Sound(s)
    ensures forall x :: x in Ranked(Covering(IndexOf(s))) <==> x in Several(s)
  {
    var links := Covering(IndexOf(s));
    RankedMembers(links);
    CoveringMembers(s);
    forall x ensures x in Ranked(links) <==> x in Several(s) {
      ListedMembers(s, x);
      if x in EndSet(links, true) {
        var l :| l in links && End(l, true) == x;
        assert l in s.relationships && Covers(l.edge.kind) && l.edge.source == x;
      }
      if x in Several(s) {
        var l :| l in s.relationships && Covers(l.edge.kind) && l.edge.source == x;
        assert l in links && End(l, true) == x;
      }
    }
  }

  // ------------------------------------------------------------------------- rank

  lemma RankedApart(links: seq<Relationship>)
    ensures NoDuplicates(Ranked(links))
  {
    var all := Ascending(EndSet(links, true), EntityKey);
    var several := SelectSeveral(links, all);
    AscendingApart(EndSet(links, true), EntityKey);
    FilterApart(all, (cert: Entity) => ListsSeveral(links, cert));
    SortBySorts(several, RankBy(links));
    PermutedApart(several, Ranked(links));
  }

  /** One rank stands before another: more names, or as many and the smaller entity. */
  lemma RankOrder(links: seq<Relationship>, y: Entity, x: Entity)
    ensures KeyLe(Rank(links, y), Rank(links, x)) <==>
              || |Members(links, true, y)| > |Members(links, true, x)|
              || (|Members(links, true, y)| == |Members(links, true, x)| && KeyLe(EntityKey(y), EntityKey(x)))
  {
    var a, b := Rank(links, y), Rank(links, x);
    assert a[1..] == EntityKey(y) && b[1..] == EntityKey(x);
    assert a[0] == [-|Members(links, true, y)|] && b[0] == [-|Members(links, true, x)|];
    assert a[0][1..] == [] && b[0][1..] == [];
  }

  lemma BeforeByRank(s: Store, y: Entity, x: Entity)
    requires Sound(s) && y != x
    ensures RanksBefore(s, y, x) <==> KeyLe(Rank(Covering(IndexOf(s)), y), Rank(Covering(IndexOf(s)), x))
    ensures RanksBefore(s, y, x) <==> !RanksBefore(s, x, y)
  {
    ListedMembers(s, y);
    ListedMembers(s, x);
    RankOrder(Covering(IndexOf(s)), y, x);
    KeyTotal(EntityKey(y), EntityKey(x));
    if EntityKey(y) == EntityKey(x) { EntityKeyInjective(y, x); }
  }

  /** The certificates that rank before the one at position `i` are those before it. */
  lemma BeforeAt(s: Store, i: nat)
    requires Sound(s) && i < |Ranked(Covering(IndexOf(s)))|
    ensures var ranked := Ranked(Covering(IndexOf(s)));
      (set y | y in Several(s) && RanksBefore(s, y, ranked[i])) == Elements(ranked[..i])
  {
    var links := Covering(IndexOf(s));
    var ranked := Ranked(links);
    SeveralRanked(s);
    RankedMembers(links);
    RankedApart(links);
    forall j | 0 <= j < |ranked| && j != i ensures RanksBefore(s, ranked[j], ranked[i]) <==> j < i {
      BeforeByRank(s, ranked[j], ranked[i]);
      if j < i {
        assert KeyLe(RankBy(links)(ranked[j]), RankBy(links)(ranked[i]));
      } else {
        assert KeyLe(RankBy(links)(ranked[i]), RankBy(links)(ranked[j]));
        BeforeByRank(s, ranked[i], ranked[j]);
      }
    }
    Positions(s, ranked, i);
  }

  lemma Positions(s: Store, ranked: seq<Entity>, i: nat)
    requires i < |ranked| && forall x :: x in ranked <==> x in Several(s)
    requires forall j :: 0 <= j < |ranked| && j != i ==> (RanksBefore(s, ranked[j], ranked[i]) <==> j < i)
    ensures (set y | y in Several(s) && RanksBefore(s, y, ranked[i])) == Elements(ranked[..i])
  {
    var x := ranked[i];
    forall y | y in Several(s) && RanksBefore(s, y, x) ensures y in ranked[..i] {
      assert !RanksBefore(s, x, x);
      var j :| 0 <= j < |ranked| && ranked[j] == y;
      assert ranked[..i][j] == y;
    }
    forall y | y in ranked[..i] ensures y in Several(s) && RanksBefore(s, y, x) {
      var j :| 0 <= j < i && ranked[j] == y;
      assert ranked[j] in ranked;
    }
  }

  lemma KeptIsRanked(ranked: seq<Entity>, x: Entity)
    requires x in Kept(ranked)
    ensures x in ranked
  {
    var i :| 0 <= i < |Kept(ranked)| && Kept(ranked)[i] == x;
    assert ranked[i] == x;
  }

  lemma KeptExactly(s: Store, x: Entity)
    requires Sound(s)
    ensures KeptCertificate(IndexOf(s), x) <==> KeptByRank(s, x)
  {
    var ranked := Ranked(Covering(IndexOf(s)));
    SeveralRanked(s);
    RankedApart(Covering(IndexOf(s)));
    if x in Several(s) {
      var i :| 0 <= i < |ranked| && ranked[i] == x;
      BeforeAt(s, i);
      PrefixSet(ranked, i);
      KeptAt(ranked, i);
    } else if x in Kept(ranked) {
      KeptIsRanked(ranked, x);
    }
  }

  lemma KeptAt(ranked: seq<Entity>, i: nat)
    requires NoDuplicates(ranked) && i < |ranked|
    ensures ranked[i] in Kept(ranked) <==> i < MAX_CERTIFICATE_GROUPS
  {
    if ranked[i] in Kept(ranked) {
      var j :| 0 <= j < |Kept(ranked)| && Kept(ranked)[j] == ranked[i];
      assert ranked[j] == ranked[i];
    }
    if i < MAX_CERTIFICATE_GROUPS { assert Kept(ranked)[i] == ranked[i]; }
  }

  /** The report has a correlation about a certificate and the names it lists exactly
      when it lists several and fewer than twenty such certificates rank before it. */
  lemma CertificateReportedExactly(s: Store, naming: Naming, x: Entity)
    requires Sound(s) && Named(s, naming)
    ensures (exists c :: c in ReportOf(s, naming).correlations && AroundCertificate(s, c, x)) <==> KeptByRank(s, x)
  {
    IndexWired(s);
    KeptExactly(s, x);
    if KeptCertificate(IndexOf(s), x) { KeptIsReported(s, naming, x); }
    if c :| c in ReportOf(s, naming).correlations && AroundCertificate(s, c, x) { ReportedIsKept(s, naming, x, c); }
  }

  lemma ReportedIsKept(s: Store, naming: Naming, x: Entity, c: Correlation)
    requires Sound(s) && Wired(IndexOf(s))
    requires c in ReportOf(s, naming).correlations && AroundCertificate(s, c, x)
    ensures KeptCertificate(IndexOf(s), x)
  {
    SharedFrom(s, naming, c);
    AroundIsKept(s, x, c, c.links[0]);
  }

  lemma KeptIsReported(s: Store, naming: Naming, x: Entity)
    requires Sound(s) && Named(s, naming) && Wired(IndexOf(s)) && KeptCertificate(IndexOf(s), x)
    ensures exists c :: c in ReportOf(s, naming).correlations && AroundCertificate(s, c, x)
  {
    var e := CertificateGroup(Covering(IndexOf(s)), x);
    SharedMembers(IndexOf(s), e);
    var c := DraftReported(s, naming, e);
    CertificateIsAround(s, naming, x, e, c);
  }

  lemma AroundIsKept(s: Store, x: Entity, c: Correlation, l: Relationship)
    requires SharedSays(s, c) && AroundCertificate(s, c, x) && l in c.links
    ensures KeptCertificate(IndexOf(s), x)
  {
  }

  /** Nothing else is reported as shared. */
  lemma OnlyGroupsReported(s: Store, naming: Naming, c: Correlation)
    requires Sound(s) && Named(s, naming) && c in ReportOf(s, naming).correlations && c.kind.SharedInfrastructure?
    ensures || (exists kind, x :: GroupedKind(kind) && AroundElement(s, c, kind, x))
            || (exists x :: KeptByRank(s, x) && AroundCertificate(s, c, x))
  {
    IndexWired(s);
    SharedFrom(s, naming, c);
    if y :| KeptCertificate(IndexOf(s), y) && AroundCertificate(s, c, y) { KeptExactly(s, y); }
  }
}
