/** What the report of a sound investigation of a domain says about certificates: those
    that list the domain, and which of their names are also in DNS data. */
module CertificateFacts {
  import opened Results
  import opened Ordering
  import opened Model
  import opened Investigation
  import opened Index
  import opened IndexFacts
  import opened CorrelationIds
  import opened Drafts
  import opened Emissions
  import opened CertificateRules
  import Shared
  import opened Correlate
  import opened ReportFacts
  import opened DraftFacts
  import GroupFacts

  // ------------------------------------------------------------ certificate links

  /** A certificate lists the name. */
  ghost predicate ListsName(s: Store, l: Relationship, name: string)
  {
    l in s.relationships && (l.edge.kind.CoversName? || l.edge.kind.CoversWildcard?) && l.edge.target == DomainEntity(name)
  }

  ghost function Coverage(s: Store, name: string): (r: set<Relationship>)
  {
    set l | l in s.relationships && ListsName(s, l, name)
  }

  lemma CoversListed(s: Store, name: string)
    requires Sound(s) && Wired(IndexOf(s))
    ensures forall l :: l in CoverLinks(IndexOf(s), DomainEntity(name)) <==> ListsName(s, l, name)
  {
    GroupFacts.SameLinks(s);
    CoverMembers(IndexOf(s), DomainEntity(name));
  }

  lemma ApartInLists(rels: seq<Relationship>, a: seq<Relationship>, b: seq<Relationship>, p: Relationship -> bool, q: Relationship -> bool)
    requires NoDuplicates(rels) && a == Filter(rels, p) && b == Filter(rels, q) && forall l :: !(p(l) && q(l))
    ensures NoDuplicates(a + b)
  {
    FilterApart(rels, p);
    FilterApart(rels, q);
    FilterMembers(rels, p);
    FilterMembers(rels, q);
    forall i, j | 0 <= i < j < |a + b| ensures (a + b)[i] != (a + b)[j] {
      if i < |a| && j >= |a| { assert a[i] in a && b[j - |a|] in b; }
    }
  }

  lemma CanonicalApart(rels: seq<Relationship>)
    requires EdgesApart(rels)
    ensures NoDuplicates(rels) && KeyedApart(rels, RelationshipKey)
  {
    forall x, y | x in rels && y in rels && RelationshipKey(x) == RelationshipKey(y) ensures x == y {
      EdgeKeyInjective(x.edge, y.edge);
      var i :| 0 <= i < |rels| && rels[i] == x;
      var j :| 0 <= j < |rels| && rels[j] == y;
    }
  }

  lemma CoversApart(ix: EvidenceIndex, e: Entity)
    requires Wired(ix) && EdgesApart(ix.relationships)
    ensures NoDuplicates(CoverLinks(ix, e))
  {
    CanonicalApart(ix.relationships);
    WiredScan(ix, CoversName, e, false);
    WiredScan(ix, CoversWildcard, e, false);
    ApartInLists(ix.relationships, To(ix, CoversName, e), To(ix, CoversWildcard, e),
                 (r: Relationship) => r.edge.kind == CoversName && End(r, false) == e,
                 (r: Relationship) => r.edge.kind == CoversWildcard && End(r, false) == e);
  }

  lemma CoversCounted(s: Store, name: string)
    requires Sound(s) && Wired(IndexOf(s))
    ensures |CoverLinks(IndexOf(s), DomainEntity(name))| == |Coverage(s, name)|
  {
    var links := CoverLinks(IndexOf(s), DomainEntity(name));
    CoversListed(s, name);
    CanonicalList(s);
    CoversApart(IndexOf(s), DomainEntity(name));
    CountMembers(links);
    assert Elements(links) == Coverage(s, name);
  }

  // ------------------------------------------------------ certificates of the domain

  /** The indexed observation is an address record of the domain. */
  ghost predicate AddressRecord(s: Store, name: string, id: ObservationId)
  {
    exists o :: o in Firsts(s.observations) && o.indicator == Domain(name) && o.data.DnsRecord? && o.data.isAddress && o.data.owner == name && o.id == id
  }

  lemma RecordsListed(s: Store, name: string)
    ensures forall id :: id in AddressRecords(IndexOf(s), name) <==> AddressRecord(s, name, id)
  {
    var os := ObservationsAbout(IndexOf(s), Domain(name));
    var records := Filter(os, (o: Observation) => IsAddressRecord(o, name));
    FilterMembers(os, (o: Observation) => IsAddressRecord(o, name));
    forall id ensures id in AddressRecords(IndexOf(s), name) <==> AddressRecord(s, name, id) {
      IdMembers(records, id);
      forall o ensures o in os <==> o in Firsts(s.observations) && o.indicator == Domain(name) { ListedExactly(s, Domain(name), o); }
    }
  }

  /** Links are cut by certificate and then by kind. */
  lemma LinkOrderExactly(k: Relationship, l: Relationship)
    ensures KeyLe(LinkOrder(k), LinkOrder(l)) <==>
              || (k.edge.source != l.edge.source && KeyLe(EntityKey(k.edge.source), EntityKey(l.edge.source)))
              || (k.edge.source == l.edge.source && KindRank(k.edge.kind) <= KindRank(l.edge.kind))
  {
    var a, b := EntityCode(k.edge.source), EntityCode(l.edge.source);
    if a == b { EntityCodeInjective(k.edge.source, l.edge.source); }
    var i, j := KindRank(k.edge.kind), KindRank(l.edge.kind);
    assert LinkOrder(k)[1..] == [[i]] && LinkOrder(l)[1..] == [[j]];
    OneNumber(i, j);
    if a != b { OneCode(a, b); }
  }

  lemma OneNumber(i: int, j: int)
    ensures KeyLe([[i]], [[j]]) <==> i <= j
  {
    assert [i][0] == i && [j][0] == j && [i][1..] == [] && [j][1..] == [];
    assert [[i]][1..] == [] && [[j]][1..] == [];
  }

  lemma OneCode(a: seq<int>, b: seq<int>)
    requires a != b
    ensures KeyLe([a], [b]) <==> LexLe(a, b)
  {
  }

  /** The links listed: all while they fit, else a hundred that no other one stands
      before, by certificate and then by kind. */
  ghost predicate FirstLinks(s: Store, links: seq<Relationship>, name: string)
  {
    && (forall l :: l in links ==> ListsName(s, l, name))
    && (|Coverage(s, name)| <= MAX_LINKS ==> forall l :: ListsName(s, l, name) ==> l in links)
    && (|Coverage(s, name)| > MAX_LINKS ==> |Elements(links)| == MAX_LINKS)
    && (forall k, l :: k in links && ListsName(s, l, name) && l !in links ==> KeyLe(LinkOrder(k), LinkOrder(l)))
  }

  /** The correlation lists the certificates of the domain and cites its address
      records; if links are left out it says how many there were. */
  ghost predicate AboutDomain(s: Store, c: Correlation, name: string)
  {
    && c.kind.DomainCertificate? && FirstLinks(s, c.links, name)
    && (forall x :: x in c.subjects <==> x == DomainEntity(name) || exists l :: l in c.links && l.edge.source == x)
    && (forall id :: id in c.supporting <==> AddressRecord(s, name, id))
    && c.claims == [] && c.conflicts == [] && c.gaps == []
    && Caveated(c, if |Coverage(s, name)| > MAX_LINKS then [CertificateIsNotProof, LinksCut(MAX_LINKS, |Coverage(s, name)|)]
                   else [CertificateIsNotProof])
  }

  lemma ShownFirst(s: Store, name: string)
    requires Sound(s) && Wired(IndexOf(s))
    ensures FirstLinks(s, Cut(SortBy(CoverLinks(IndexOf(s), DomainEntity(name)), LinkOrder), MAX_LINKS), name)
  {
    var all := CoverLinks(IndexOf(s), DomainEntity(name));
    var sorted := SortBy(all, LinkOrder);
    CoversListed(s, name);
    CoversCounted(s, name);
    CanonicalList(s);
    CoversApart(IndexOf(s), DomainEntity(name));
    SortBySorts(all, LinkOrder);
    PermutedApart(all, sorted);
    CutKeepsLeast(sorted, MAX_LINKS);
    CutApart(sorted, MAX_LINKS);
  }

  lemma CutApart(s: seq<Relationship>, n: nat)
    requires NoDuplicates(s)
    ensures |Elements(Cut(s, n))| == |Cut(s, n)|
  {
    forall i, j | 0 <= i < j < |Cut(s, n)| ensures Cut(s, n)[i] != Cut(s, n)[j] {
      assert Cut(s, n)[i] == s[i] && Cut(s, n)[j] == s[j];
    }
    CountMembers(Cut(s, n));
  }

  lemma SourceMembers(links: seq<Relationship>)
    ensures forall x :: x in SourcesOf(links) <==> exists l :: l in links && l.edge.source == x
  {
    forall x ensures x in SourcesOf(links) <==> exists l :: l in links && l.edge.source == x {
      if x in SourcesOf(links) {
        var i :| 0 <= i < |links| && SourcesOf(links)[i] == x;
        assert links[i] in links;
      }
      if l :| l in links && l.edge.source == x {
        var i :| 0 <= i < |links| && links[i] == l;
        assert SourcesOf(links)[i] == x;
      }
    }
  }

  /** What a correlation says that carries the list of certificates. */
  lemma ListedSays(ix: EvidenceIndex, name: string, shown: seq<Relationship>, total: nat, c: Correlation)
    requires Carries(ListedDraft(ix, name, shown, total), c)
    ensures forall l :: l in c.links <==> l in shown
    ensures forall x :: x in c.subjects <==> x == DomainEntity(name) || exists l :: l in shown && l.edge.source == x
    ensures SameIds(c.supporting, AddressRecords(ix, name)) && c.claims == [] && c.conflicts == [] && c.gaps == []
    ensures Caveated(c, CutCaveats(total))
  {
    Nothing(c.claims);
    SourceMembers(shown);
    assert forall x :: x in [DomainEntity(name)] + SourcesOf(shown) <==> x == DomainEntity(name) || x in SourcesOf(shown);
  }

  lemma FirstLinksAlike(s: Store, a: seq<Relationship>, b: seq<Relationship>, name: string)
    requires FirstLinks(s, a, name) && forall l :: l in a <==> l in b
    ensures FirstLinks(s, b, name)
  {
    assert Elements(a) == Elements(b);
  }

  lemma DomainDraftIsAbout(s: Store, name: string, d: Draft, c: Correlation)
    requires Sound(s) && Wired(IndexOf(s)) && DomainDraft(IndexOf(s), name) == Some(d) && Carries(d, c) && c.kind.DomainCertificate?
    ensures AboutDomain(s, c, name) && Coverage(s, name) != {}
  {
    var all := CoverLinks(IndexOf(s), DomainEntity(name));
    var shown := Cut(SortBy(all, LinkOrder), MAX_LINKS);
    ListedSays(IndexOf(s), name, shown, |all|, c);
    ShownFirst(s, name);
    FirstLinksAlike(s, shown, c.links, name);
    CoversCounted(s, name);
    RecordsListed(s, name);
  }

  /** The report of the investigation of a domain has a correlation about the
      certificates that list it exactly when there are some. */
  lemma DomainReportedExactly(s: Store, naming: Naming, name: string)
    requires Sound(s) && Named(s, naming) && s.target == Domain(name)
    ensures (exists c :: c in ReportOf(s, naming).correlations && AboutDomain(s, c, name)) <==> Coverage(s, name) != {}
  {
    IndexWired(s);
    if Coverage(s, name) != {} { DomainReported(s, naming, name); }
    if c :| c in ReportOf(s, naming).correlations && AboutDomain(s, c, name) { ReportedDomain(s, naming, c); }
  }

  lemma DomainReported(s: Store, naming: Naming, name: string)
    requires Sound(s) && Named(s, naming) && Wired(IndexOf(s)) && s.target == Domain(name) && Coverage(s, name) != {}
    ensures exists c :: c in ReportOf(s, naming).correlations && AboutDomain(s, c, name)
  {
    CoversCounted(s, name);
    var e := Emission(DomainCertificate, DomainDraft(IndexOf(s), name).value);
    CertificateMembers(IndexOf(s), e);
    var c := DraftReported(s, naming, e);
    DraftCarried(s, naming, e, c);
    DomainDraftIsAbout(s, name, e.draft, c);
  }

  /** Only about a target that is a domain there is such a correlation, and it is about
      that domain. */
  lemma ReportedDomain(s: Store, naming: Naming, c: Correlation)
    requires Sound(s) && c in ReportOf(s, naming).correlations && c.kind.DomainCertificate?
    ensures s.target.Domain? && AboutDomain(s, c, s.target.name) && Coverage(s, s.target.name) != {}
  {
    IndexWired(s);
    var e := DraftBehind(s, naming, c);
    assert Comes(s, naming, e, c);
    DraftCarried(s, naming, e, c);
    CertificateMembers(IndexOf(s), e);
    DomainDraftIsAbout(s, s.target.name, e.draft, c);
  }

  // --------------------------------------------------------- names that are in DNS data

  /** A DNS relationship has the name at one end. */
  ghost predicate InDnsLink(s: Store, l: Relationship, name: string)
  {
    && l in s.relationships && (l.edge.source == DomainEntity(name) || l.edge.target == DomainEntity(name))
    && (l.edge.kind.ResolvesTo? || l.edge.kind.AliasOf? || l.edge.kind.HasMailExchanger? || l.edge.kind.HasNameserver?)
  }

  /** The indexed observation is a DNS record of the name. */
  ghost predicate OwnRecord(s: Store, name: string, id: ObservationId)
  {
    exists o :: o in Firsts(s.observations) && o.data.DnsRecord? && o.data.ownerDomain == Some(name) && o.id == id
  }

  ghost predicate InDnsData(s: Store, name: string)
  {
    (exists l :: InDnsLink(s, l, name)) || (exists id :: OwnRecord(s, name, id))
  }

  /** A name lies strictly below another when labels and a dot stand before it. */
  lemma SubdomainExactly(name: string, parent: string)
    ensures IsSubdomainOf(name, parent) <==> exists labels :: labels != "" && name == labels + "." + parent
  {
    if IsSubdomainOf(name, parent) {
      var labels := name[..|name| - |parent| - 1];
      assert name == labels + "." + parent && labels != "";
    }
    if labels :| labels != "" && name == labels + "." + parent {
      assert name[|name| - |parent|..] == parent;
    }
  }

  /** The name lies strictly below the target and a certificate lists it. */
  ghost predicate Below(s: Store, target: string, name: string)
  {
    name != target && IsSubdomainOf(name, target) && exists l :: ListsName(s, l, name)
  }

  ghost predicate Confirmed(s: Store, target: string, name: string)
  {
    Below(s, target, name) && InDnsData(s, name)
  }

  /** Fewer than five certificate links of the name stand before this one, names before
      wildcards and then by certificate. */
  ghost predicate FewBefore(s: Store, name: string, l: Relationship)
  {
    ListsName(s, l, name) && |LinksBefore(s, name, l)| < CT_LINKS_PER_NAME
  }

  ghost function LinksBefore(s: Store, name: string, l: Relationship): (r: set<Relationship>)
  {
    set k | k in Coverage(s, name) && k != l && KeyLe(RelationshipKey(k), RelationshipKey(l))
  }

  /** The names strictly below the target that certificates list. */
  ghost function NamesBelow(s: Store, target: string): (r: set<string>)
  {
    set l | l in s.relationships && IsCover(l) && IsRelated(l.edge.target, target) :: NameOf(l.edge.target).value
  }

  predicate IsCover(l: Relationship)
  {
    l.edge.kind.CoversName? || l.edge.kind.CoversWildcard?
  }

  lemma NamesBelowExactly(s: Store, target: string, name: string)
    ensures name in NamesBelow(s, target) <==> Below(s, target, name)
  {
    if name in NamesBelow(s, target) {
      var l :| l in s.relationships && IsCover(l) && IsRelated(l.edge.target, target) && NameOf(l.edge.target).value == name;
      assert ListsName(s, l, name);
    }
    if Below(s, target, name) {
      var l :| ListsName(s, l, name);
      assert IsCover(l) && IsRelated(l.edge.target, target) && NameOf(l.edge.target).value == name;
    }
  }

  lemma CtNamesAreBelow(s: Store, target: string)
    requires Sound(s)
    ensures CtNames(Shared.Covering(IndexOf(s)), target) == NamesBelow(s, target)
  {
    GroupFacts.CoveringMembers(s);
  }

  lemma DnsLinkNames(ix: EvidenceIndex, name: string)
    ensures name in NamesIn(DnsLinks(ix)) <==>
              exists l :: l in ix.relationships && IsDnsKind(l.edge.kind) && (l.edge.source == DomainEntity(name) || l.edge.target == DomainEntity(name))
  {
    OfKindMembers(ix, ResolvesTo);
    OfKindMembers(ix, AliasOf);
    OfKindMembers(ix, HasMailExchanger);
    OfKindMembers(ix, HasNameserver);
    DnsLinksAre(ix);
    EndsNamed(DnsLinks(ix), name);
  }

  lemma DnsLinksAre(ix: EvidenceIndex)
    ensures forall l :: l in DnsLinks(ix) <==> l in ix.relationships && IsDnsKind(l.edge.kind)
  {
    OfKindMembers(ix, ResolvesTo);
    OfKindMembers(ix, AliasOf);
    OfKindMembers(ix, HasMailExchanger);
    OfKindMembers(ix, HasNameserver);
  }

  lemma EndsNamed(links: seq<Relationship>, name: string)
    ensures name in NamesIn(links) <==>
              exists l :: l in links && (l.edge.source == DomainEntity(name) || l.edge.target == DomainEntity(name))
  {
    if l :| l in links && (l.edge.source == DomainEntity(name) || l.edge.target == DomainEntity(name)) {
      assert NameOf(DomainEntity(name)) == Some(name);
      assert NameOf(End(l, true)) == Some(name) || NameOf(End(l, false)) == Some(name);
    }
    if name in NamesIn(links) {
      var atSource :| name in NamesAt(links, atSource);
      var l :| l in links && NameOf(End(l, atSource)).Some? && NameOf(End(l, atSource)).value == name;
      assert End(l, atSource) == DomainEntity(name);
    }
  }

  lemma {:induction false} AllAboutMembers(ix: EvidenceIndex, indicators: seq<Indicator>, n: nat, o: Observation)
    requires n <= |indicators|
    ensures o in AllAbout(ix, indicators, n) <==> exists i :: 0 <= i < n && o in ObservationsAbout(ix, indicators[i])
  {
    if n > 0 { AllAboutMembers(ix, indicators, n - 1, o); }
  }

  lemma AboutSome(s: Store, indicators: seq<Indicator>, o: Observation)
    requires o in AllAbout(IndexOf(s), indicators, |indicators|)
    ensures o in Firsts(s.observations)
  {
    AllAboutMembers(IndexOf(s), indicators, |indicators|, o);
    var i :| 0 <= i < |indicators| && o in ObservationsAbout(IndexOf(s), indicators[i]);
    ListedExactly(s, indicators[i], o);
  }

  lemma AboutOwn(s: Store, indicators: seq<Indicator>, o: Observation)
    requires o in Firsts(s.observations) && o.indicator in indicators
    ensures o in AllAbout(IndexOf(s), indicators, |indicators|)
  {
    var i :| 0 <= i < |indicators| && indicators[i] == o.indicator;
    ListedExactly(s, o.indicator, o);
    AllAboutMembers(IndexOf(s), indicators, |indicators|, o);
  }

  /** The indexed observations, each about some indicator. */
  lemma AllIndexed(s: Store, o: Observation)
    ensures o in AllObservations(IndexOf(s)) <==> o in Firsts(s.observations)
  {
    var indicators := Ascending(IndexOf(s).byIndicator.Keys, IndicatorKey);
    if o in AllObservations(IndexOf(s)) { AboutSome(s, indicators, o); }
    if o in Firsts(s.observations) {
      ListedExactly(s, o.indicator, o);
      AboutOwn(s, indicators, o);
    }
  }

  lemma OwnersListed(os: seq<Observation>, name: string)
    ensures name in OwnersIn(os) <==> exists o :: o in os && o.data.DnsRecord? && o.data.ownerDomain == Some(name)
  {
    if o :| o in os && o.data.DnsRecord? && o.data.ownerDomain == Some(name) { assert RecordOwner(o) == Some(name); }
    if name in OwnersIn(os) {
      var o :| o in os && RecordOwner(o).Some? && RecordOwner(o).value == name;
    }
  }

  lemma OwnersOwn(s: Store, os: seq<Observation>, name: string)
    requires forall o :: o in os <==> o in Firsts(s.observations)
    ensures (exists o :: o in os && o.data.DnsRecord? && o.data.ownerDomain == Some(name)) <==> exists id :: OwnRecord(s, name, id)
  {
    if o :| o in os && o.data.DnsRecord? && o.data.ownerDomain == Some(name) { assert OwnRecord(s, name, o.id); }
    if id :| OwnRecord(s, name, id) {
      var o :| o in Firsts(s.observations) && o.data.DnsRecord? && o.data.ownerDomain == Some(name) && o.id == id;
      assert o in os;
    }
  }

  lemma OwnersIndexed(s: Store, name: string)
    ensures name in OwnersIn(AllObservations(IndexOf(s))) <==> exists id :: OwnRecord(s, name, id)
  {
    var os := AllObservations(IndexOf(s));
    forall o ensures o in os <==> o in Firsts(s.observations) { AllIndexed(s, o); }
    OwnersListed(os, name);
    OwnersOwn(s, os, name);
  }

  lemma RecordsIndexed(s: Store, name: string, id: ObservationId)
    ensures id in RecordsOf(AllObservations(IndexOf(s)), name) <==> OwnRecord(s, name, id)
  {
    forall o ensures o in AllObservations(IndexOf(s)) <==> o in Firsts(s.observations) { AllIndexed(s, o); }
    RecordMembers(AllObservations(IndexOf(s)), name, id);
  }

  /** The names reported are those that both certificates and DNS data have. */
  lemma SharedAreConfirmed(s: Store, target: string, name: string)
    requires Sound(s)
    ensures name in SharedNames(IndexOf(s), target) <==> Confirmed(s, target, name)
  {
    SharedNameMembers(IndexOf(s), target);
    CtNamesAreBelow(s, target);
    NamesBelowExactly(s, target, name);
    DnsDataHave(s, name);
  }

  lemma DnsDataHave(s: Store, name: string)
    requires Sound(s)
    ensures name in NamesIn(DnsLinks(IndexOf(s))) + OwnersIn(AllObservations(IndexOf(s))) <==> InDnsData(s, name)
  {
    DnsLinkNames(IndexOf(s), name);
    OwnersIndexed(s, name);
    LinkedInDns(s, name);
  }

  lemma LinkedInDns(s: Store, name: string)
    requires Sound(s)
    ensures (exists l :: InDnsLink(s, l, name)) <==>
              exists l :: l in IndexOf(s).relationships && IsDnsKind(l.edge.kind) &&
                          (l.edge.source == DomainEntity(name) || l.edge.target == DomainEntity(name))
  {
    GroupFacts.SameLinks(s);
    if l :| InDnsLink(s, l, name) { assert l in IndexOf(s).relationships; }
    if l :| l in IndexOf(s).relationships && IsDnsKind(l.edge.kind) &&
            (l.edge.source == DomainEntity(name) || l.edge.target == DomainEntity(name)) {
      assert InDnsLink(s, l, name);
    }
  }

  lemma FirstFive(s: Store, name: string, l: Relationship)
    requires Sound(s) && Wired(IndexOf(s))
    ensures AmongFirst(IndexOf(s), name, l) <==> FewBefore(s, name, l)
  {
    var links := CoverLinks(IndexOf(s), DomainEntity(name));
    CoversListed(s, name);
    CanonicalList(s);
    CoversApart(IndexOf(s), DomainEntity(name));
    CoverLinksSorted(IndexOf(s), DomainEntity(name));
    CanonicalApart(IndexOf(s).relationships);
    CoverMembers(IndexOf(s), DomainEntity(name));
    if l in links {
      var i :| 0 <= i < |links| && links[i] == l;
      PlaceInOrder(s, name, links, i);
    }
  }

  lemma PlaceInOrder(s: Store, name: string, links: seq<Relationship>, i: nat)
    requires NoDuplicates(links) && Sorted(links, RelationshipKey) && KeyedApart(links, RelationshipKey) && i < |links|
    requires forall l :: l in links <==> ListsName(s, l, name)
    ensures FewBefore(s, name, links[i]) <==> i < CT_LINKS_PER_NAME
    ensures forall j :: 0 <= j < |links| && links[j] == links[i] ==> j == i
  {
    RankIsPosition(links, RelationshipKey, i);
    var l := links[i];
    forall k ensures k in LinksBefore(s, name, l) <==> k in Preceding(links, RelationshipKey, l) {
      assert k in Coverage(s, name) <==> ListsName(s, k, name);
    }
    assert LinksBefore(s, name, l) == Preceding(links, RelationshipKey, l);
    assert links[i] in links;
  }

  /** The subjects, the links and the records of the correlation. */
  ghost predicate NamesListed(s: Store, c: Correlation, target: string)
  {
    && (forall x :: x in c.subjects <==> exists name :: Confirmed(s, target, name) && x == DomainEntity(name))
    && (forall l :: l in c.links <==> exists name :: Confirmed(s, target, name) && (InDnsLink(s, l, name) || FewBefore(s, name, l)))
    && (forall id :: id in c.supporting <==> exists name :: Confirmed(s, target, name) && OwnRecord(s, name, id))
  }

  /** The correlation is about the confirmed names: it lists every DNS link of one of
      them and the first five certificate links of each, cites their records, and
      says how many names below the target are not in DNS data. */
  ghost predicate AboutNames(s: Store, c: Correlation, target: string)
  {
    && c.kind.CtDnsNames? && c.claims == [] && c.conflicts == [] && NamesListed(s, c, target)
    && NamesLacking(s, c.gaps, target) && NameCaveatsTold(s, c, target)
  }

  ghost function ConfirmedNames(s: Store, target: string): (r: set<string>)
  {
    set name | name in NamesBelow(s, target) && InDnsData(s, name)
  }

  /** How many names below the target have no DNS data is a gap, if any have none. */
  ghost predicate NamesLacking(s: Store, gaps: seq<Gap>, target: string)
  {
    var missing := |NamesBelow(s, target) - ConfirmedNames(s, target)|;
    gaps == if missing > 0 then [NamesWithoutDns(missing)] else []
  }

  ghost predicate NameCaveatsTold(s: Store, c: Correlation, target: string)
  {
    if exists name :: Confirmed(s, target, name) && |Coverage(s, name)| > CT_LINKS_PER_NAME
    then Caveated(c, [CertificateIsNotProof, CtNamesNotResolved, LinksSampled(CT_LINKS_PER_NAME)])
    else Caveated(c, [CertificateIsNotProof, CtNamesNotResolved])
  }

  /** What a correlation says that carries the draft about confirmed names. */
  lemma NamesSay(ix: EvidenceIndex, names: seq<string>, total: nat, c: Correlation)
    requires Wired(ix) && |names| <= total && Carries(NamesDraft(ix, names, total), c)
    ensures c.claims == [] && c.conflicts == [] && c.gaps == NameGaps(total - |names|)
    ensures forall x :: x in c.subjects <==> x in EntitiesOfNames(names)
    ensures forall l :: l in c.links <==> l in Flatten(LinkParts(ix, names))
    ensures SameIds(c.supporting, Flatten(RecordParts(AllObservations(ix), names)))
    ensures Caveated(c, NameCaveats(Sampled(ix, names)))
  {
    var limitations := NameCaveats(Sampled(ix, names));
    assert Once(limitations);
    PlainCarried(EntitiesOfNames(names), Flatten(LinkParts(ix, names)), Flatten(RecordParts(AllObservations(ix), names)), [],
                 NameGaps(total - |names|), limitations, c);
  }

  lemma NamedEntities(names: seq<string>, x: Entity)
    ensures x in EntitiesOfNames(names) <==> exists name :: name in names && x == DomainEntity(name)
  {
    if name :| name in names && x == DomainEntity(name) {
      var i :| 0 <= i < |names| && names[i] == name;
      assert EntitiesOfNames(names)[i] == x;
    }
    if x in EntitiesOfNames(names) {
      var i :| 0 <= i < |names| && EntitiesOfNames(names)[i] == x;
      assert names[i] in names;
    }
  }

  lemma RecordPartMembers(os: seq<Observation>, names: seq<string>, id: ObservationId)
    ensures id in Flatten(RecordParts(os, names)) <==> exists name :: name in names && id in RecordsOf(os, name)
  {
    var parts := RecordParts(os, names);
    FlattenMembers(parts);
    if i :| 0 <= i < |parts| && id in parts[i] {
      assert names[i] in names && id in RecordsOf(os, names[i]);
    }
    if name :| name in names && id in RecordsOf(os, name) {
      var i :| 0 <= i < |names| && names[i] == name;
      assert id in parts[i];
    }
  }

  /** The names reported, as a set. */
  ghost predicate AreConfirmed(s: Store, target: string, names: seq<string>)
  {
    forall name :: name in names <==> Confirmed(s, target, name)
  }

  lemma SubjectsTold(s: Store, target: string, names: seq<string>)
    requires AreConfirmed(s, target, names)
    ensures forall x :: x in EntitiesOfNames(names) <==> exists name :: Confirmed(s, target, name) && x == DomainEntity(name)
  {
    forall x ensures x in EntitiesOfNames(names) <==> exists name :: Confirmed(s, target, name) && x == DomainEntity(name) {
      NamedEntities(names, x);
    }
  }

  lemma LinksTold(s: Store, target: string, names: seq<string>)
    requires Sound(s) && Wired(IndexOf(s)) && AreConfirmed(s, target, names)
    ensures forall l :: l in Flatten(LinkParts(IndexOf(s), names)) <==>
              exists name :: Confirmed(s, target, name) && (InDnsLink(s, l, name) || FewBefore(s, name, l))
  {
    forall l ensures l in Flatten(LinkParts(IndexOf(s), names)) <==>
                       exists name :: Confirmed(s, target, name) && (InDnsLink(s, l, name) || FewBefore(s, name, l)) {
      ListedPart(IndexOf(s), names, l);
      forall name ensures l in NameLinks(IndexOf(s), name) <==> InDnsLink(s, l, name) || FewBefore(s, name, l) {
        LinkOfName(s, name, l);
      }
    }
  }

  lemma LinkOfName(s: Store, name: string, l: Relationship)
    requires Sound(s) && Wired(IndexOf(s))
    ensures l in NameLinks(IndexOf(s), name) <==> InDnsLink(s, l, name) || FewBefore(s, name, l)
  {
    NameLinksExactly(IndexOf(s), name, l);
    FirstFive(s, name, l);
    GroupFacts.SameLinks(s);
  }

  lemma RecordsTold(s: Store, target: string, names: seq<string>)
    requires AreConfirmed(s, target, names)
    ensures forall id :: id in Flatten(RecordParts(AllObservations(IndexOf(s)), names)) <==>
              exists name :: Confirmed(s, target, name) && OwnRecord(s, name, id)
  {
    forall id ensures id in Flatten(RecordParts(AllObservations(IndexOf(s)), names)) <==>
                        exists name :: Confirmed(s, target, name) && OwnRecord(s, name, id) {
      RecordPartMembers(AllObservations(IndexOf(s)), names, id);
      forall name ensures id in RecordsOf(AllObservations(IndexOf(s)), name) <==> OwnRecord(s, name, id) {
        RecordsIndexed(s, name, id);
      }
    }
  }

  lemma SampledTold(s: Store, target: string, names: seq<string>)
    requires Sound(s) && Wired(IndexOf(s)) && AreConfirmed(s, target, names)
    ensures Sampled(IndexOf(s), names) <==> exists name :: Confirmed(s, target, name) && |Coverage(s, name)| > CT_LINKS_PER_NAME
  {
    forall name ensures Oversized(IndexOf(s), name) <==> |Coverage(s, name)| > CT_LINKS_PER_NAME { CoversCounted(s, name); }
  }

  lemma NamesOnce(names: set<string>, known: set<string>)
    ensures NoDuplicates(Among(Ascending(names, NameKey), known))
  {
    AscendingApart(names, NameKey);
    FilterApart(Ascending(names, NameKey), (n: string) => n in known);
  }

  lemma SharedCounted(s: Store, target: string)
    requires Sound(s)
    ensures |SharedNames(IndexOf(s), target)| == |ConfirmedNames(s, target)|
    ensures ConfirmedNames(s, target) <= NamesBelow(s, target)
  {
    var names := SharedNames(IndexOf(s), target);
    forall name ensures name in names <==> name in ConfirmedNames(s, target) {
      SharedAreConfirmed(s, target, name);
      NamesBelowExactly(s, target, name);
    }
    NamesOnce(CtNames(Shared.Covering(IndexOf(s)), target), NamesIn(DnsLinks(IndexOf(s))) + OwnersIn(AllObservations(IndexOf(s))));
    CountMembers(names);
    assert Elements(names) == ConfirmedNames(s, target);
  }

  lemma GapTold(s: Store, target: string)
    requires Sound(s)
    ensures |SharedNames(IndexOf(s), target)| <= |NamesBelow(s, target)|
    ensures NamesLacking(s, NameGaps(|NamesBelow(s, target)| - |SharedNames(IndexOf(s), target)|), target)
  {
    SharedCounted(s, target);
    Remaining(NamesBelow(s, target), ConfirmedNames(s, target));
  }

  lemma Remaining(all: set<string>, part: set<string>)
    requires part <= all
    ensures |all - part| == |all| - |part|
  {
    assert all == (all - part) + part;
  }

  lemma CaveatsFollow(s: Store, c: Correlation, target: string, sampled: bool)
    requires sampled <==> exists name :: Confirmed(s, target, name) && |Coverage(s, name)| > CT_LINKS_PER_NAME
    requires Caveated(c, NameCaveats(sampled))
    ensures NameCaveatsTold(s, c, target)
  {
  }

  lemma NamesDraftIsAbout(s: Store, target: string, names: seq<string>, total: nat, c: Correlation)
    requires Sound(s) && Wired(IndexOf(s)) && names == SharedNames(IndexOf(s), target) && total == |NamesBelow(s, target)|
    requires |names| <= total && Carries(NamesDraft(IndexOf(s), names, total), c) && c.kind.CtDnsNames?
    ensures AboutNames(s, c, target)
  {
    forall name ensures name in names <==> Confirmed(s, target, name) { SharedAreConfirmed(s, target, name); }
    NamesSay(IndexOf(s), names, total, c);
    ListsTold(s, target, names, c);
    SampledTold(s, target, names);
    GapTold(s, target);
    CaveatsFollow(s, c, target, Sampled(IndexOf(s), names));
  }

  lemma ListsTold(s: Store, target: string, names: seq<string>, c: Correlation)
    requires Sound(s) && Wired(IndexOf(s)) && AreConfirmed(s, target, names)
    requires forall x :: x in c.subjects <==> x in EntitiesOfNames(names)
    requires forall l :: l in c.links <==> l in Flatten(LinkParts(IndexOf(s), names))
    requires SameIds(c.supporting, Flatten(RecordParts(AllObservations(IndexOf(s)), names)))
    ensures NamesListed(s, c, target)
  {
    SubjectsTold(s, target, names);
    LinksTold(s, target, names);
    RecordsTold(s, target, names);
  }

  lemma CtDraftIsAbout(s: Store, target: string, d: Draft, c: Correlation)
    requires Sound(s) && Wired(IndexOf(s)) && CtDraft(IndexOf(s), target) == Some(d) && Carries(d, c) && c.kind.CtDnsNames?
    ensures AboutNames(s, c, target) && exists name :: Confirmed(s, target, name)
  {
    var names := SharedNames(IndexOf(s), target);
    CtNamesAreBelow(s, target);
    SharedNameMembers(IndexOf(s), target);
    NamesDraftIsAbout(s, target, names, |NamesBelow(s, target)|, c);
    SharedAreConfirmed(s, target, names[0]);
    assert names[0] in names;
  }

  /** The report of the investigation of a domain has a correlation about names of
      certificates exactly when some of them below the domain are in DNS data. */
  lemma NamesReportedExactly(s: Store, naming: Naming, target: string)
    requires Sound(s) && Named(s, naming) && s.target == Domain(target)
    ensures (exists c :: c in ReportOf(s, naming).correlations && AboutNames(s, c, target)) <==>
              exists name :: Confirmed(s, target, name)
  {
    IndexWired(s);
    if name :| Confirmed(s, target, name) { NamesReported(s, naming, target, name); }
    if c :| c in ReportOf(s, naming).correlations && AboutNames(s, c, target) { ReportedNames(s, naming, c); }
  }

  lemma NamesReported(s: Store, naming: Naming, target: string, name: string)
    requires Sound(s) && Named(s, naming) && Wired(IndexOf(s)) && s.target == Domain(target) && Confirmed(s, target, name)
    ensures exists c :: c in ReportOf(s, naming).correlations && AboutNames(s, c, target)
  {
    SharedAreConfirmed(s, target, name);
    var e := Emission(CtDnsNames, CtDraft(IndexOf(s), target).value);
    CertificateMembers(IndexOf(s), e);
    var c := DraftReported(s, naming, e);
    DraftCarried(s, naming, e, c);
    CtDraftIsAbout(s, target, e.draft, c);
  }

  /** Only about a target that is a domain there is such a correlation, and it is about
      names below that domain. */
  lemma ReportedNames(s: Store, naming: Naming, c: Correlation)
    requires Sound(s) && c in ReportOf(s, naming).correlations && c.kind.CtDnsNames?
    ensures s.target.Domain? && AboutNames(s, c, s.target.name) && exists name :: Confirmed(s, s.target.name, name)
  {
    IndexWired(s);
    var e := DraftBehind(s, naming, c);
    assert Comes(s, naming, e, c);
    DraftCarried(s, naming, e, c);
    CertificateMembers(IndexOf(s), e);
    CtDraftIsAbout(s, s.target.name, e.draft, c);
  }
}
