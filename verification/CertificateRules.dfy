/** The rules about certificates: those that list the investigated domain, and
    certificate names that also appear in DNS data
    (crates/correlation/src/rules/certificates.rs). */
module CertificateRules {
  import opened Results
  import opened Ordering
  import opened Model
  import opened Index
  import opened IndexFacts
  import opened CorrelationIds
  import opened Drafts
  import opened Emissions
  import Shared

  const MAX_LINKS: nat := 100
  const CT_LINKS_PER_NAME: nat := 5

  function DomainEntity(name: string): (e: Entity) { IndicatorEntity(Domain(name)) }

  function NameOf(e: Entity): (r: Option<string>)
  {
    if e.IndicatorEntity? && e.indicator.Domain? then Some(e.indicator.name) else None
  }

  function Cut<T>(s: seq<T>, n: nat): (r: seq<T>)
    ensures |r| <= n && r <= s && (|s| <= n ==> r == s) && (|s| > n ==> |r| == n)
  {
    if |s| > n then s[..n] else s
  }

  function Ids(os: seq<Observation>): (r: seq<ObservationId>)
  {
    seq(|os|, i requires 0 <= i < |os| => os[i].id)
  }

  lemma IdMembers(os: seq<Observation>, id: ObservationId)
    ensures id in Ids(os) <==> exists o :: o in os && o.id == id
  {
    if o :| o in os && o.id == id {
      var i :| 0 <= i < |os| && os[i] == o;
      assert Ids(os)[i] == id;
    }
  }

  /** The certificate links that list a name. */
  function CoverLinks(ix: EvidenceIndex, e: Entity): (r: seq<Relationship>)
    requires Wired(ix)
  {
    To(ix, CoversName, e) + To(ix, CoversWildcard, e)
  }

  lemma CoverMembers(ix: EvidenceIndex, e: Entity)
    requires Wired(ix)
    ensures forall l :: l in CoverLinks(ix, e) <==>
              l in ix.relationships && (l.edge.kind.CoversName? || l.edge.kind.CoversWildcard?) && l.edge.target == e
  {
    LookupMembers(ix, CoversName, e);
    LookupMembers(ix, CoversWildcard, e);
  }

  // -------------------------------------------------- certificates of a domain

  function LinkOrder(l: Relationship): (k: Key) { [EntityCode(l.edge.source), [KindRank(l.edge.kind)]] }

  function SourcesOf(links: seq<Relationship>): (r: seq<Entity>)
  {
    seq(|links|, i requires 0 <= i < |links| => links[i].edge.source)
  }

  predicate IsAddressRecord(o: Observation, name: string)
  {
    o.data.DnsRecord? && o.data.isAddress && o.data.owner == name
  }

  function AddressRecords(ix: EvidenceIndex, name: string): (r: seq<ObservationId>)
  {
    Ids(Filter(ObservationsAbout(ix, Domain(name)), (o: Observation) => IsAddressRecord(o, name)))
  }

  function CutCaveats(total: nat): (r: seq<Caveat>)
  {
    if total > MAX_LINKS then [CertificateIsNotProof, LinksCut(MAX_LINKS, total)] else [CertificateIsNotProof]
  }

  function ListedDraft(ix: EvidenceIndex, name: string, shown: seq<Relationship>, total: nat): (d: Draft)
  {
    Draft([DomainEntity(name)] + SourcesOf(shown), shown, [], AddressRecords(ix, name), [], [], CutCaveats(total))
  }

  /** The certificates that list the domain, by certificate and kind, at most so
      many links. */
  function DomainDraft(ix: EvidenceIndex, name: string): (r: Option<Draft>)
    requires Wired(ix)
  {
    var links := CoverLinks(ix, DomainEntity(name));
    if links == [] then None
    else Some(ListedDraft(ix, name, Cut(SortBy(links, LinkOrder), MAX_LINKS), |links|))
  }

  method ListSources(e: Entity, links: seq<Relationship>) returns (subjects: seq<Entity>)
    ensures subjects == [e] + SourcesOf(links)
  {
    subjects := [e];
    for i := 0 to |links|
      invariant subjects == [e] + SourcesOf(links[..i])
    {
      assert SourcesOf(links[..i + 1]) == SourcesOf(links[..i]) + [links[i].edge.source];
      subjects := subjects + [links[i].edge.source];
    }
    assert links[..|links|] == links;
  }

  method DomainCertificates(ix: EvidenceIndex, name: string) returns (r: Option<Draft>)
    requires Wired(ix)
    ensures r == DomainDraft(ix, name)
  {
    var links := CoverLinks(ix, DomainEntity(name));
    if links == [] { return None; }
    var d := ListCertificates(ix, name, links);
    r := Some(d);
  }

  method ListCertificates(ix: EvidenceIndex, name: string, links: seq<Relationship>) returns (d: Draft)
    ensures d == ListedDraft(ix, name, Cut(SortBy(links, LinkOrder), MAX_LINKS), |links|)
  {
    SortBySorts(links, LinkOrder);
    var shown := SortBy(links, LinkOrder);
    var limitations := [CertificateIsNotProof];
    if |shown| > MAX_LINKS {
      limitations := limitations + [LinksCut(MAX_LINKS, |shown|)];
      shown := shown[..MAX_LINKS];
    }
    var subjects := ListSources(DomainEntity(name), shown);
    d := Draft(subjects, shown, [], AddressRecords(ix, name), [], [], limitations);
  }

  /** Every certificate link of the domain is listed while they fit; beyond that
      the first ones by certificate and kind are, and the caveat says how many
      there were. */
  lemma DomainLinksListed(ix: EvidenceIndex, name: string)
    requires Wired(ix) && DomainDraft(ix, name).Some?
    ensures var d, all := DomainDraft(ix, name).value, CoverLinks(ix, DomainEntity(name));
      && Sorted(d.links, LinkOrder)
      && (forall l :: l in d.links ==> l in all)
      && (|all| <= MAX_LINKS ==> multiset(d.links) == multiset(all) && d.limitations == [CertificateIsNotProof])
      && (|all| > MAX_LINKS ==> |d.links| == MAX_LINKS && LinksCut(MAX_LINKS, |all|) in d.limitations)
      && (forall k, l :: k in d.links && l in all && l !in d.links ==> KeyLe(LinkOrder(k), LinkOrder(l)))
  {
    var all := CoverLinks(ix, DomainEntity(name));
    SortBySorts(all, LinkOrder);
    CutKeepsLeast(SortBy(all, LinkOrder), MAX_LINKS);
  }

  lemma CutKeepsLeast(s: seq<Relationship>, n: nat)
    requires Sorted(s, LinkOrder)
    ensures Sorted(Cut(s, n), LinkOrder)
    ensures forall k :: k in Cut(s, n) ==> k in s
    ensures forall k, l :: k in Cut(s, n) && l in s && l !in Cut(s, n) ==> KeyLe(LinkOrder(k), LinkOrder(l))
  {
    forall k, l | k in Cut(s, n) && l in s && l !in Cut(s, n) ensures KeyLe(LinkOrder(k), LinkOrder(l)) {
      var i :| 0 <= i < |Cut(s, n)| && Cut(s, n)[i] == k;
      var j :| 0 <= j < |s| && s[j] == l;
      assert forall m :: 0 <= m < |Cut(s, n)| ==> s[m] == Cut(s, n)[m] && Cut(s, n)[m] in Cut(s, n);
      assert i < j && s[i] == k;
    }
  }

  // ------------------------------------------------------------------ DNS data

  function DnsLinks(ix: EvidenceIndex): (r: seq<Relationship>)
  {
    OfKind(ix, ResolvesTo) + OfKind(ix, AliasOf) + OfKind(ix, HasMailExchanger) + OfKind(ix, HasNameserver)
  }

  /** The domain names at one end of these links. */
  function NamesAt(links: seq<Relationship>, atSource: bool): (r: set<string>)
  {
    set l | l in links && NameOf(End(l, atSource)).Some? :: NameOf(End(l, atSource)).value
  }

  function NamesIn(links: seq<Relationship>): (r: set<string>)
  {
    NamesAt(links, true) + NamesAt(links, false)
  }

  function RecordOwner(o: Observation): (r: Option<string>)
  {
    if o.data.DnsRecord? then o.data.ownerDomain else None
  }

  function OwnersIn(os: seq<Observation>): (r: set<string>)
  {
    set o | o in os && RecordOwner(o).Some? :: RecordOwner(o).value
  }

  /** The DNS records whose owner is this name. */
  function RecordsOf(os: seq<Observation>, name: string): (r: seq<ObservationId>)
  {
    Ids(Filter(os, (o: Observation) => RecordOwner(o) == Some(name)))
  }

  ghost function DnsNames(links: seq<Relationship>, os: seq<Observation>): (m: map<string, seq<ObservationId>>)
  {
    map n | n in NamesIn(links) + OwnersIn(os) :: RecordsOf(os, n)
  }

  /** The indexed observations, indicator by indicator. */
  function AllAbout(ix: EvidenceIndex, indicators: seq<Indicator>, n: nat): (r: seq<Observation>)
    requires n <= |indicators|
  {
    if n == 0 then [] else AllAbout(ix, indicators, n - 1) + ObservationsAbout(ix, indicators[n - 1])
  }

  ghost function AllObservations(ix: EvidenceIndex): (r: seq<Observation>)
  {
    var indicators := Ascending(ix.byIndicator.Keys, IndicatorKey);
    AllAbout(ix, indicators, |indicators|)
  }

  function WithName(m: map<string, seq<ObservationId>>, e: Entity): (r: map<string, seq<ObservationId>>)
  {
    match NameOf(e)
    case Some(n) => if n in m then m else m[n := []]
    case None => m
  }

  method LinkNames(links: seq<Relationship>) returns (m: map<string, seq<ObservationId>>)
    ensures m == DnsNames(links, [])
  {
    m := map[];
    for i := 0 to |links|
      invariant m == DnsNames(links[..i], [])
    {
      NamesStep(links[..i], links[i]);
      assert links[..i + 1] == links[..i] + [links[i]];
      m := WithName(WithName(m, links[i].edge.source), links[i].edge.target);
    }
    assert links[..|links|] == links;
  }

  function NameSet(e: Entity): (r: set<string>)
  {
    match NameOf(e) case Some(n) => {n} case None => {}
  }

  /** These names, each without records. */
  ghost predicate Unrecorded(m: map<string, seq<ObservationId>>, names: set<string>)
  {
    m.Keys == names && forall n :: n in m ==> m[n] == []
  }

  lemma WithNameUnrecorded(m: map<string, seq<ObservationId>>, names: set<string>, e: Entity)
    requires Unrecorded(m, names)
    ensures Unrecorded(WithName(m, e), names + NameSet(e))
  {
  }

  lemma LinkNamesUnrecorded(links: seq<Relationship>)
    ensures Unrecorded(DnsNames(links, []), NamesIn(links))
  {
  }

  lemma NamesStep(links: seq<Relationship>, l: Relationship)
    ensures DnsNames(links + [l], []) == WithName(WithName(DnsNames(links, []), l.edge.source), l.edge.target)
  {
    var m, names := DnsNames(links, []), NamesIn(links);
    LinkNamesUnrecorded(links);
    LinkNamesUnrecorded(links + [l]);
    WithNameUnrecorded(m, names, l.edge.source);
    WithNameUnrecorded(WithName(m, l.edge.source), names + NameSet(l.edge.source), l.edge.target);
    NamesAtStep(links, l, true);
    NamesAtStep(links, l, false);
    SameUnrecorded(DnsNames(links + [l], []), WithName(WithName(m, l.edge.source), l.edge.target), NamesIn(links + [l]));
  }

  lemma SameUnrecorded(a: map<string, seq<ObservationId>>, b: map<string, seq<ObservationId>>, names: set<string>)
    requires Unrecorded(a, names) && Unrecorded(b, names)
    ensures a == b
  {
    assert a.Keys == b.Keys;
  }

  lemma NamesAtStep(links: seq<Relationship>, l: Relationship, atSource: bool)
    ensures NamesAt(links + [l], atSource)
         == NamesAt(links, atSource) + (if NameOf(End(l, atSource)).Some? then {NameOf(End(l, atSource)).value} else {})
  {
    assert forall x :: x in links + [l] <==> x in links || x == l;
  }

  function WithRecord(m: map<string, seq<ObservationId>>, o: Observation): (r: map<string, seq<ObservationId>>)
  {
    match RecordOwner(o)
    case Some(n) => m[n := (if n in m then m[n] else []) + [o.id]]
    case None => m
  }

  lemma RecordStep(links: seq<Relationship>, os: seq<Observation>, o: Observation)
    ensures DnsNames(links, os + [o]) == WithRecord(DnsNames(links, os), o)
  {
    var next, goal := DnsNames(links, os + [o]), WithRecord(DnsNames(links, os), o);
    assert forall x :: x in os + [o] <==> x in os || x == o;
    assert OwnersIn(os + [o]) == OwnersIn(os) + (if RecordOwner(o).Some? then {RecordOwner(o).value} else {});
    assert next.Keys == goal.Keys;
    forall n | n in next ensures next[n] == goal[n] {
      RecordsStep(os, o, n);
      if n !in OwnersIn(os) { NoRecords(os, n); }
    }
  }

  lemma RecordsStep(os: seq<Observation>, o: Observation, name: string)
    ensures RecordsOf(os + [o], name) == RecordsOf(os, name) + (if RecordOwner(o) == Some(name) then [o.id] else [])
  {
    var p := (x: Observation) => RecordOwner(x) == Some(name);
    FilterConcat(os, [o], p);
    assert Filter([o][1..], p) == [];
  }

  lemma NoRecords(os: seq<Observation>, name: string)
    requires name !in OwnersIn(os)
    ensures RecordsOf(os, name) == []
  {
    forall o | o in os ensures RecordOwner(o) != Some(name) {
      if RecordOwner(o).Some? { assert RecordOwner(o).value in OwnersIn(os); }
    }
    FilterNone(os, (o: Observation) => RecordOwner(o) == Some(name));
  }

  method AddRecords(m: map<string, seq<ObservationId>>, os: seq<Observation>,
                    ghost links: seq<Relationship>, ghost before: seq<Observation>) returns (r: map<string, seq<ObservationId>>)
    requires m == DnsNames(links, before)
    ensures r == DnsNames(links, before + os)
  {
    r := m;
    assert before + [] == before && os[..0] == [];
    for j := 0 to |os|
      invariant r == DnsNames(links, before + os[..j])
    {
      RecordStep(links, before + os[..j], os[j]);
      assert before + os[..j + 1] == before + os[..j] + [os[j]];
      r := WithRecord(r, os[j]);
    }
    assert os[..|os|] == os;
  }

  method AddAllRecords(ix: EvidenceIndex, indicators: seq<Indicator>, named: map<string, seq<ObservationId>>,
                       ghost links: seq<Relationship>) returns (m: map<string, seq<ObservationId>>)
    requires named == DnsNames(links, [])
    ensures m == DnsNames(links, AllAbout(ix, indicators, |indicators|))
  {
    m := named;
    for i := 0 to |indicators|
      invariant m == DnsNames(links, AllAbout(ix, indicators, i))
    {
      m := AddRecords(m, ObservationsAbout(ix, indicators[i]), links, AllAbout(ix, indicators, i));
    }
  }

  /** Domain names in DNS data, with the records they own. */
  method CollectDnsNames(ix: EvidenceIndex) returns (m: map<string, seq<ObservationId>>)
    ensures m == DnsNames(DnsLinks(ix), AllObservations(ix))
  {
    var links := DnsLinks(ix);
    m := LinkNames(links);
    forall a: Indicator, b: Indicator | IndicatorKey(a) == IndicatorKey(b) ensures a == b { IndicatorKeyInjective(a, b); }
    var indicators := ListAscending(ix.byIndicator.Keys, IndicatorKey);
    m := AddAllRecords(ix, indicators, m, links);
  }

  // --------------------------------------------- certificate names in DNS data

  predicate IsRelated(e: Entity, target: string)
  {
    NameOf(e).Some? && NameOf(e).value != target && IsSubdomainOf(NameOf(e).value, target)
  }

  /** Names strictly below the target that certificates list. */
  function CtNames(links: seq<Relationship>, target: string): (r: set<string>)
  {
    set l | l in links && IsRelated(l.edge.target, target) :: NameOf(l.edge.target).value
  }

  method CollectCtNames(links: seq<Relationship>, target: string) returns (names: set<string>)
    ensures names == CtNames(links, target)
  {
    names := {};
    for i := 0 to |links|
      invariant names == CtNames(links[..i], target)
    {
      assert links[..i + 1] == links[..i] + [links[i]];
      if IsRelated(links[i].edge.target, target) { names := names + {NameOf(links[i].edge.target).value}; }
    }
    assert links[..|links|] == links;
  }

  function NameKey(n: string): (k: Key) { [Codes(n)] }

  lemma NameKeyInjective(a: string, b: string)
    requires NameKey(a) == NameKey(b)
    ensures a == b
  {
    assert NameKey(a)[0] == NameKey(b)[0];
    CodesInjective(a, b);
  }

  function Among(names: seq<string>, known: set<string>): (r: seq<string>)
  {
    Filter(names, (n: string) => n in known)
  }

  function BothEnds(ix: EvidenceIndex, kind: RelationKind, e: Entity): (r: seq<Relationship>)
    requires Wired(ix)
  {
    From(ix, kind, e) + To(ix, kind, e)
  }

  function DnsLinksOf(ix: EvidenceIndex, e: Entity): (r: seq<Relationship>)
    requires Wired(ix)
  {
    BothEnds(ix, ResolvesTo, e) + BothEnds(ix, AliasOf, e) + BothEnds(ix, HasMailExchanger, e) + BothEnds(ix, HasNameserver, e)
  }

  function NameLinks(ix: EvidenceIndex, name: string): (r: seq<Relationship>)
    requires Wired(ix)
  {
    Cut(CoverLinks(ix, DomainEntity(name)), CT_LINKS_PER_NAME) + DnsLinksOf(ix, DomainEntity(name))
  }

  /** More certificate links list the name than are reported. */
  predicate Oversized(ix: EvidenceIndex, name: string)
    requires Wired(ix)
  {
    |CoverLinks(ix, DomainEntity(name))| > CT_LINKS_PER_NAME
  }

  function LinkParts(ix: EvidenceIndex, names: seq<string>): (r: seq<seq<Relationship>>)
    requires Wired(ix)
  {
    seq(|names|, i requires 0 <= i < |names| => NameLinks(ix, names[i]))
  }

  function RecordParts(os: seq<Observation>, names: seq<string>): (r: seq<seq<ObservationId>>)
  {
    seq(|names|, i requires 0 <= i < |names| => RecordsOf(os, names[i]))
  }

  function EntitiesOfNames(names: seq<string>): (r: seq<Entity>)
  {
    seq(|names|, i requires 0 <= i < |names| => DomainEntity(names[i]))
  }

  ghost predicate Sampled(ix: EvidenceIndex, names: seq<string>)
    requires Wired(ix)
  {
    exists n :: n in names && Oversized(ix, n)
  }

  function NameCaveats(sampled: bool): (r: seq<Caveat>)
  {
    if sampled then [CertificateIsNotProof, CtNamesNotResolved, LinksSampled(CT_LINKS_PER_NAME)]
    else [CertificateIsNotProof, CtNamesNotResolved]
  }

  function NameGaps(missing: nat): (r: seq<Gap>)
  {
    if missing > 0 then [NamesWithoutDns(missing)] else []
  }

  /** The names of certificates that DNS data also have, in order. */
  ghost function SharedNames(ix: EvidenceIndex, target: string): (r: seq<string>)
  {
    Among(Ascending(CtNames(Shared.Covering(ix), target), NameKey), NamesIn(DnsLinks(ix)) + OwnersIn(AllObservations(ix)))
  }

  ghost function NamesDraft(ix: EvidenceIndex, names: seq<string>, total: nat): (d: Draft)
    requires Wired(ix) && |names| <= total
  {
    NamesDraftFrom(ix, AllObservations(ix), names, total)
  }

  ghost function NamesDraftFrom(ix: EvidenceIndex, os: seq<Observation>, names: seq<string>, total: nat): (d: Draft)
    requires Wired(ix) && |names| <= total
  {
    Draft(EntitiesOfNames(names), Flatten(LinkParts(ix, names)), [], Flatten(RecordParts(os, names)), [],
          NameGaps(total - |names|), NameCaveats(Sampled(ix, names)))
  }

  ghost function CtDraft(ix: EvidenceIndex, target: string): (r: Option<Draft>)
    requires Wired(ix)
  {
    var names, total := SharedNames(ix, target), |CtNames(Shared.Covering(ix), target)|;
    SharedNameMembers(ix, target);
    if names == [] then None else Some(NamesDraft(ix, names, total))
  }

  lemma SharedNameMembers(ix: EvidenceIndex, target: string)
    ensures |SharedNames(ix, target)| <= |CtNames(Shared.Covering(ix), target)|
    ensures forall n :: n in SharedNames(ix, target) <==>
              n in CtNames(Shared.Covering(ix), target) && n in NamesIn(DnsLinks(ix)) + OwnersIn(AllObservations(ix))
  {
    var known := NamesIn(DnsLinks(ix)) + OwnersIn(AllObservations(ix));
    FilterMembers(Ascending(CtNames(Shared.Covering(ix), target), NameKey), (n: string) => n in known);
  }

  /** The links reported for one name, and whether some were left out. */
  method LinksFor(ix: EvidenceIndex, name: string) returns (links: seq<Relationship>, cut: bool)
    requires Wired(ix)
    ensures links == NameLinks(ix, name) && cut == Oversized(ix, name)
  {
    var e := DomainEntity(name);
    var ctLinks := CoverLinks(ix, e);
    cut := |ctLinks| > CT_LINKS_PER_NAME;
    if cut { ctLinks := ctLinks[..CT_LINKS_PER_NAME]; }
    links := ctLinks + DnsLinksOf(ix, e);
  }

  lemma LinkPartsPrefix(ix: EvidenceIndex, names: seq<string>)
    requires Wired(ix) && names != []
    ensures LinkParts(ix, names) == LinkParts(ix, names[..|names| - 1]) + [NameLinks(ix, names[|names| - 1])]
  {
    var a, b := LinkParts(ix, names), LinkParts(ix, names[..|names| - 1]) + [NameLinks(ix, names[|names| - 1])];
    forall k | 0 <= k < |names| ensures a[k] == b[k] {
      if k < |names| - 1 { assert names[..|names| - 1][k] == names[k]; }
    }
  }

  lemma LinkPartsStep(ix: EvidenceIndex, names: seq<string>, i: nat)
    requires Wired(ix) && i < |names|
    ensures Flatten(LinkParts(ix, names[..i + 1])) == Flatten(LinkParts(ix, names[..i])) + NameLinks(ix, names[i])
  {
    var shorter, longer := names[..i], names[..i + 1];
    LinkPartsPrefix(ix, longer);
    assert longer[..i] == shorter && longer[i] == names[i];
    FlattenStep(LinkParts(ix, shorter), NameLinks(ix, names[i]));
  }

  lemma RecordPartsStep(os: seq<Observation>, names: seq<string>, i: nat)
    requires i < |names|
    ensures Flatten(RecordParts(os, names[..i + 1])) == Flatten(RecordParts(os, names[..i])) + RecordsOf(os, names[i])
  {
    assert RecordParts(os, names[..i + 1]) == RecordParts(os, names[..i]) + [RecordsOf(os, names[i])];
    FlattenStep(RecordParts(os, names[..i]), RecordsOf(os, names[i]));
  }

  lemma SampledStep(ix: EvidenceIndex, names: seq<string>, i: nat)
    requires Wired(ix) && i < |names|
    ensures Sampled(ix, names[..i + 1]) <==> Sampled(ix, names[..i]) || Oversized(ix, names[i])
  {
    assert names[..i + 1] == names[..i] + [names[i]];
    assert forall n :: n in names[..i + 1] <==> n in names[..i] || n == names[i];
  }

  lemma EntitiesStep(names: seq<string>, i: nat)
    requires i < |names|
    ensures EntitiesOfNames(names[..i + 1]) == EntitiesOfNames(names[..i]) + [DomainEntity(names[i])]
  {
  }

  /** What the loop has gathered for these names. */
  ghost predicate Gathered(ix: EvidenceIndex, os: seq<Observation>, names: seq<string>, subjects: seq<Entity>,
                           links: seq<Relationship>, supporting: seq<ObservationId>, sampled: bool)
    requires Wired(ix)
  {
    && subjects == EntitiesOfNames(names) && links == Flatten(LinkParts(ix, names))
    && supporting == Flatten(RecordParts(os, names)) && (sampled <==> Sampled(ix, names))
  }

  lemma GatheredStep(ix: EvidenceIndex, os: seq<Observation>, names: seq<string>, i: nat, subjects: seq<Entity>,
                     links: seq<Relationship>, supporting: seq<ObservationId>, sampled: bool)
    requires Wired(ix) && i < |names| && Gathered(ix, os, names[..i], subjects, links, supporting, sampled)
    ensures Gathered(ix, os, names[..i + 1], subjects + [DomainEntity(names[i])], links + NameLinks(ix, names[i]),
                     supporting + RecordsOf(os, names[i]), sampled || Oversized(ix, names[i]))
  {
    EntitiesStep(names, i);
    LinkPartsStep(ix, names, i);
    RecordPartsStep(os, names, i);
    SampledStep(ix, names, i);
  }

  /** Name by name: the subject, the links and the records it adds. */
  method GatherNames(ix: EvidenceIndex, names: seq<string>, inDns: map<string, seq<ObservationId>>, ghost os: seq<Observation>)
    returns (subjects: seq<Entity>, links: seq<Relationship>, supporting: seq<ObservationId>, sampled: bool)
    requires Wired(ix)
    requires forall i :: 0 <= i < |names| ==> names[i] in inDns && inDns[names[i]] == RecordsOf(os, names[i])
    ensures Gathered(ix, os, names, subjects, links, supporting, sampled)
  {
    subjects, links, supporting, sampled := [], [], [], false;
    for i := 0 to |names|
      invariant Gathered(ix, os, names[..i], subjects, links, supporting, sampled)
    {
      GatheredStep(ix, os, names, i, subjects, links, supporting, sampled);
      var listed, cut := LinksFor(ix, names[i]);
      subjects := subjects + [DomainEntity(names[i])];
      sampled := sampled || cut;
      links := links + listed;
      supporting := supporting + inDns[names[i]];
    }
    assert names[..|names|] == names;
  }

  method DraftNames(ix: EvidenceIndex, names: seq<string>, total: nat, inDns: map<string, seq<ObservationId>>,
                    ghost os: seq<Observation>) returns (d: Draft)
    requires Wired(ix) && |names| <= total
    requires forall i :: 0 <= i < |names| ==> names[i] in inDns && inDns[names[i]] == RecordsOf(os, names[i])
    ensures d == NamesDraftFrom(ix, os, names, total)
  {
    var subjects, links, supporting, sampled := GatherNames(ix, names, inDns, os);
    d := Draft(subjects, links, [], supporting, [], NameGaps(total - |names|), NameCaveats(sampled));
  }

  /** The names of the set that DNS data also have, and the DNS data. */
  method InDns(ix: EvidenceIndex, ctNames: set<string>) returns (names: seq<string>, inDns: map<string, seq<ObservationId>>)
    ensures inDns == DnsNames(DnsLinks(ix), AllObservations(ix))
    ensures names == Among(Ascending(ctNames, NameKey), NamesIn(DnsLinks(ix)) + OwnersIn(AllObservations(ix)))
  {
    inDns := CollectDnsNames(ix);
    forall a: string, b: string | NameKey(a) == NameKey(b) ensures a == b { NameKeyInjective(a, b); }
    var all := ListAscending(ctNames, NameKey);
    assert inDns.Keys == NamesIn(DnsLinks(ix)) + OwnersIn(AllObservations(ix));
    names := Among(all, inDns.Keys);
  }

  method CertificateNames(ix: EvidenceIndex, target: string) returns (r: Option<Draft>)
    requires Wired(ix)
    ensures r == CtDraft(ix, target)
  {
    var ctNames := CollectCtNames(Shared.Covering(ix), target);
    if ctNames == {} {
      NoSharedNames(ix, target);
      return None;
    }
    var names, inDns := InDns(ix, ctNames);
    if names == [] { return None; }
    SharedReady(ix, target, names, |ctNames|, inDns);
    var d := DraftNames(ix, names, |ctNames|, inDns, AllObservations(ix));
    r := Some(d);
  }

  lemma SharedReady(ix: EvidenceIndex, target: string, names: seq<string>, total: nat, inDns: map<string, seq<ObservationId>>)
    requires names == SharedNames(ix, target) && total == |CtNames(Shared.Covering(ix), target)|
    requires inDns == DnsNames(DnsLinks(ix), AllObservations(ix))
    ensures |names| <= total
    ensures forall i :: 0 <= i < |names| ==> names[i] in inDns && inDns[names[i]] == RecordsOf(AllObservations(ix), names[i])
  {
    SharedNameMembers(ix, target);
    RecordsFound(DnsLinks(ix), AllObservations(ix), names);
  }

  lemma RecordsFound(links: seq<Relationship>, os: seq<Observation>, names: seq<string>)
    requires forall n :: n in names ==> n in NamesIn(links) + OwnersIn(os)
    ensures forall i :: 0 <= i < |names| ==>
              names[i] in DnsNames(links, os) && DnsNames(links, os)[names[i]] == RecordsOf(os, names[i])
  {
    assert forall i :: 0 <= i < |names| ==> names[i] in names;
  }

  lemma NoSharedNames(ix: EvidenceIndex, target: string)
    requires CtNames(Shared.Covering(ix), target) == {}
    ensures SharedNames(ix, target) == []
  {
    SharedNameMembers(ix, target);
  }

  // ---------------------------------------------------------------------- rule

  ghost function Emitted(ix: EvidenceIndex): (r: seq<Emission>)
    requires Wired(ix)
  {
    match ix.target
    case Domain(name) => Emitting(DomainCertificate, DomainDraft(ix, name)) + Emitting(CtDnsNames, CtDraft(ix, name))
    case _ => []
  }

  method Correlate(emit: Emit)
    requires emit.Valid() && Wired(emit.ix)
    modifies emit
    ensures emit.Valid() && emit.log == old(emit.log) + Emitted(emit.ix)
  {
    match emit.ix.target {
      case Domain(name) =>
        var first := DomainCertificates(emit.ix, name);
        emit.PushIfAny(DomainCertificate, first);
        var second := CertificateNames(emit.ix, name);
        emit.PushIfAny(CtDnsNames, second);
        Appends(old(emit.log), Emitting(DomainCertificate, first), Emitting(CtDnsNames, second));
      case _ =>
    }
  }

  // ------------------------------------------------------------------- meaning

  predicate IsDnsKind(k: RelationKind)
  {
    k.ResolvesTo? || k.AliasOf? || k.HasMailExchanger? || k.HasNameserver?
  }

  lemma DnsLinkMembers(ix: EvidenceIndex, e: Entity)
    requires Wired(ix)
    ensures forall l :: l in DnsLinksOf(ix, e) <==>
              l in ix.relationships && IsDnsKind(l.edge.kind) && (l.edge.source == e || l.edge.target == e)
  {
    LookupMembers(ix, ResolvesTo, e);
    LookupMembers(ix, AliasOf, e);
    LookupMembers(ix, HasMailExchanger, e);
    LookupMembers(ix, HasNameserver, e);
  }

  lemma PartListed(ix: EvidenceIndex, names: seq<string>, i: nat, l: Relationship)
    requires Wired(ix) && i < |names| && l in NameLinks(ix, names[i])
    ensures l in Flatten(LinkParts(ix, names))
  {
    FlattenMembers(LinkParts(ix, names));
    assert l in LinkParts(ix, names)[i];
  }

  /** One of the first five certificate links of the name. */
  ghost predicate AmongFirst(ix: EvidenceIndex, name: string, l: Relationship)
    requires Wired(ix)
  {
    exists i :: 0 <= i < CT_LINKS_PER_NAME && i < |CoverLinks(ix, DomainEntity(name))| && CoverLinks(ix, DomainEntity(name))[i] == l
  }

  ghost predicate TouchesInDns(ix: EvidenceIndex, name: string, l: Relationship)
  {
    l in ix.relationships && IsDnsKind(l.edge.kind) && (l.edge.source == DomainEntity(name) || l.edge.target == DomainEntity(name))
  }

  lemma NameLinksExactly(ix: EvidenceIndex, name: string, l: Relationship)
    requires Wired(ix)
    ensures l in NameLinks(ix, name) <==> TouchesInDns(ix, name, l) || AmongFirst(ix, name, l)
  {
    var links := CoverLinks(ix, DomainEntity(name));
    var kept := Cut(links, CT_LINKS_PER_NAME);
    DnsLinkMembers(ix, DomainEntity(name));
    if l in kept {
      var i :| 0 <= i < |kept| && kept[i] == l;
      assert links[i] == l;
    }
    if AmongFirst(ix, name, l) {
      var i :| 0 <= i < CT_LINKS_PER_NAME && i < |links| && links[i] == l;
      assert kept[i] == l;
    }
  }

  lemma ListedPart(ix: EvidenceIndex, names: seq<string>, l: Relationship)
    requires Wired(ix)
    ensures l in Flatten(LinkParts(ix, names)) <==> exists name :: name in names && l in NameLinks(ix, name)
  {
    var parts := LinkParts(ix, names);
    FlattenMembers(parts);
    if i :| 0 <= i < |parts| && l in parts[i] {
      assert names[i] in names && l in NameLinks(ix, names[i]);
    }
    if name :| name in names && l in NameLinks(ix, name) {
      var i :| 0 <= i < |names| && names[i] == name;
      assert l in parts[i];
    }
  }

  /** The links listed for the reported names, and no others: every DNS link of one
      of them, and of its certificate links the first five. */
  lemma NameLinksListed(ix: EvidenceIndex, target: string, l: Relationship)
    requires Wired(ix)
    ensures l in Flatten(LinkParts(ix, SharedNames(ix, target))) <==>
              exists name :: name in SharedNames(ix, target) && (TouchesInDns(ix, name, l) || AmongFirst(ix, name, l))
  {
    var names := SharedNames(ix, target);
    ListedPart(ix, names, l);
    forall name ensures l in NameLinks(ix, name) <==> TouchesInDns(ix, name, l) || AmongFirst(ix, name, l) {
      NameLinksExactly(ix, name, l);
    }
  }

  lemma ToSorted(ix: EvidenceIndex, kind: RelationKind, e: Entity)
    requires Wired(ix) && Sorted(ix.relationships, RelationshipKey)
    ensures Sorted(To(ix, kind, e), RelationshipKey)
  {
    WiredScan(ix, kind, e, false);
    FilterSorted(ix.relationships, (r: Relationship) => r.edge.kind == kind && End(r, false) == e, RelationshipKey);
  }

  /** The certificate links of a name stand in the order of their keys: those that
      list it, then those that list it by a wildcard, each by certificate. So the
      first five are the least five. */
  lemma CoverLinksSorted(ix: EvidenceIndex, e: Entity)
    requires Wired(ix) && Sorted(ix.relationships, RelationshipKey)
    ensures Sorted(CoverLinks(ix, e), RelationshipKey)
  {
    var a, b := To(ix, CoversName, e), To(ix, CoversWildcard, e);
    ToSorted(ix, CoversName, e);
    ToSorted(ix, CoversWildcard, e);
    LookupMembers(ix, CoversName, e);
    LookupMembers(ix, CoversWildcard, e);
    forall x, y | x in a && y in b ensures KeyLe(RelationshipKey(x), RelationshipKey(y)) { NamesBeforeWildcards(x, y); }
    SortedConcat(a, b);
  }

  lemma NamesBeforeWildcards(x: Relationship, y: Relationship)
    requires x.edge.kind.CoversName? && y.edge.kind.CoversWildcard?
    ensures KeyLe(RelationshipKey(x), RelationshipKey(y))
  {
    assert RelationshipKey(x)[0] == [6] && RelationshipKey(y)[0] == [7];
  }

  lemma SortedConcat(a: seq<Relationship>, b: seq<Relationship>)
    requires Sorted(a, RelationshipKey) && Sorted(b, RelationshipKey)
    requires forall x, y :: x in a && y in b ==> KeyLe(RelationshipKey(x), RelationshipKey(y))
    ensures Sorted(a + b, RelationshipKey)
  {
    var s := a + b;
    forall i, j | 0 <= i < j < |s| ensures KeyLe(RelationshipKey(s[i]), RelationshipKey(s[j])) {
      if i < |a| && j >= |a| { assert s[i] == a[i] && s[j] == b[j - |a|]; }
    }
  }

  /** A name is reported exactly when it lies strictly below the target, a
      certificate lists it, and it is an end of a DNS link or owns a DNS record. */
  lemma ReportedExactly(ix: EvidenceIndex, target: string, name: string)
    ensures name in SharedNames(ix, target) <==>
              && name != target && IsSubdomainOf(name, target)
              && (exists l :: l in Shared.Covering(ix) && l.edge.target == DomainEntity(name))
              && (name in NamesIn(DnsLinks(ix)) || name in OwnersIn(AllObservations(ix)))
  {
    SharedNameMembers(ix, target);
    CtNameExactly(Shared.Covering(ix), target, name);
  }

  lemma CtNameExactly(links: seq<Relationship>, target: string, name: string)
    ensures name in CtNames(links, target) <==>
              name != target && IsSubdomainOf(name, target) && exists l :: l in links && l.edge.target == DomainEntity(name)
  {
    if l :| l in links && l.edge.target == DomainEntity(name) {
      assert NameOf(l.edge.target) == Some(name);
    }
    if name in CtNames(links, target) {
      var l :| l in links && IsRelated(l.edge.target, target) && NameOf(l.edge.target).value == name;
      assert l.edge.target == DomainEntity(name);
    }
  }

  // -------------------------------------------------------------- no new facts

  lemma DomainDraftDerived(ix: EvidenceIndex, name: string)
    requires Grounded(ix) && ix.target == Domain(name) && DomainDraft(ix, name).Some?
    ensures Derived(ix, DomainDraft(ix, name).value)
  {
    var all := CoverLinks(ix, DomainEntity(name));
    ShownDerived(ix, name, Cut(SortBy(all, LinkOrder), MAX_LINKS), |all|);
  }

  lemma ShownDerived(ix: EvidenceIndex, name: string, shown: seq<Relationship>, total: nat)
    requires Grounded(ix) && ix.target == Domain(name) && CoverLinks(ix, DomainEntity(name)) != []
    requires shown == Cut(SortBy(CoverLinks(ix, DomainEntity(name)), LinkOrder), MAX_LINKS)
    ensures Derived(ix, ListedDraft(ix, name, shown, total))
  {
    ShownExist(ix, name, shown);
    SourcesKnown(ix, shown);
    RecordsKnown(ix, name);
    ListedDerived(ix, name, shown, total);
  }

  lemma ShownExist(ix: EvidenceIndex, name: string, shown: seq<Relationship>)
    requires Wired(ix) && CoverLinks(ix, DomainEntity(name)) != []
    requires shown == Cut(SortBy(CoverLinks(ix, DomainEntity(name)), LinkOrder), MAX_LINKS)
    ensures ExistingLinks(ix, shown) && shown != []
  {
    var all := CoverLinks(ix, DomainEntity(name));
    SortBySorts(all, LinkOrder);
    CutKeepsLeast(SortBy(all, LinkOrder), MAX_LINKS);
    CoverMembers(ix, DomainEntity(name));
  }

  lemma ListedDerived(ix: EvidenceIndex, name: string, shown: seq<Relationship>, total: nat)
    requires ix.target == Domain(name) && ix.target in ix.indicators
    requires ExistingLinks(ix, shown) && shown != [] && SubjectsKnown(ix, SourcesOf(shown))
    requires KnownEvidence(ix, AddressRecords(ix, name))
    ensures Derived(ix, ListedDraft(ix, name, shown, total))
  {
  }

  lemma SourcesKnown(ix: EvidenceIndex, links: seq<Relationship>)
    requires Grounded(ix) && ExistingLinks(ix, links)
    ensures SubjectsKnown(ix, SourcesOf(links))
  {
    forall e | e in SourcesOf(links) ensures KnowsEntity(ix, e) {
      var i :| 0 <= i < |links| && SourcesOf(links)[i] == e;
      assert links[i] in links && GroundedLink(ix, links[i]);
    }
  }

  lemma RecordsKnown(ix: EvidenceIndex, name: string)
    requires Grounded(ix)
    ensures KnownEvidence(ix, AddressRecords(ix, name))
  {
    var os := ObservationsAbout(ix, Domain(name));
    FilterMembers(os, (o: Observation) => IsAddressRecord(o, name));
    forall id | id in AddressRecords(ix, name) ensures id in ix.byId {
      IdMembers(Filter(os, (o: Observation) => IsAddressRecord(o, name)), id);
    }
  }

  lemma {:induction false} AllAboutKnown(ix: EvidenceIndex, indicators: seq<Indicator>, n: nat)
    requires Grounded(ix) && n <= |indicators|
    ensures forall o :: o in AllAbout(ix, indicators, n) ==> o.id in ix.byId
  {
    if n > 0 { AllAboutKnown(ix, indicators, n - 1); }
  }

  lemma RecordPartsKnown(ix: EvidenceIndex, os: seq<Observation>, names: seq<string>)
    requires forall o :: o in os ==> o.id in ix.byId
    ensures KnownEvidence(ix, Flatten(RecordParts(os, names)))
  {
    var parts := RecordParts(os, names);
    FlattenMembers(parts);
    forall id, i | 0 <= i < |parts| && id in parts[i] ensures id in ix.byId {
      var name := names[i];
      var owned := Filter(os, (o: Observation) => RecordOwner(o) == Some(name));
      FilterMembers(os, (o: Observation) => RecordOwner(o) == Some(name));
      RecordMembers(os, name, id);
    }
  }

  lemma RecordMembers(os: seq<Observation>, name: string, id: ObservationId)
    ensures id in RecordsOf(os, name) <==> exists o :: o in os && RecordOwner(o) == Some(name) && o.id == id
  {
    FilterMembers(os, (o: Observation) => RecordOwner(o) == Some(name));
    IdMembers(Filter(os, (o: Observation) => RecordOwner(o) == Some(name)), id);
  }

  lemma NameListed(ix: EvidenceIndex, target: string, name: string)
    requires Grounded(ix) && name in CtNames(Shared.Covering(ix), target)
    ensures KnowsEntity(ix, DomainEntity(name)) && CoverLinks(ix, DomainEntity(name)) != []
  {
    var l :| l in Shared.Covering(ix) && IsRelated(l.edge.target, target) && NameOf(l.edge.target).value == name;
    OfKindMembers(ix, CoversName);
    OfKindMembers(ix, CoversWildcard);
    CoverMembers(ix, DomainEntity(name));
    assert GroundedLink(ix, l) && l.edge.target == DomainEntity(name);
    assert l in CoverLinks(ix, DomainEntity(name));
  }

  lemma NameLinksExist(ix: EvidenceIndex, name: string)
    requires Wired(ix)
    ensures ExistingLinks(ix, NameLinks(ix, name))
    ensures CoverLinks(ix, DomainEntity(name)) != [] ==> NameLinks(ix, name) != []
  {
    CoverMembers(ix, DomainEntity(name));
    DnsLinkMembers(ix, DomainEntity(name));
  }

  lemma LinkPartsExist(ix: EvidenceIndex, names: seq<string>)
    requires Wired(ix)
    ensures ExistingLinks(ix, Flatten(LinkParts(ix, names)))
  {
    var parts := LinkParts(ix, names);
    FlattenMembers(parts);
    forall l, i | 0 <= i < |parts| && l in parts[i] ensures l in ix.relationships {
      NameLinksExist(ix, names[i]);
    }
  }

  lemma SomeLink(ix: EvidenceIndex, names: seq<string>)
    requires Wired(ix) && names != [] && CoverLinks(ix, DomainEntity(names[0])) != []
    ensures Flatten(LinkParts(ix, names)) != []
  {
    NameLinksExist(ix, names[0]);
    assert NameLinks(ix, names[0])[0] in NameLinks(ix, names[0]);
    PartListed(ix, names, 0, NameLinks(ix, names[0])[0]);
  }

  lemma NamesKnown(ix: EvidenceIndex, target: string)
    requires Grounded(ix)
    ensures var names := SharedNames(ix, target);
      forall i :: 0 <= i < |names| ==> KnowsEntity(ix, DomainEntity(names[i])) && CoverLinks(ix, DomainEntity(names[i])) != []
  {
    var names := SharedNames(ix, target);
    SharedNameMembers(ix, target);
    forall i | 0 <= i < |names| ensures KnowsEntity(ix, DomainEntity(names[i])) && CoverLinks(ix, DomainEntity(names[i])) != [] {
      assert names[i] in names;
      NameListed(ix, target, names[i]);
    }
  }

  lemma RecordedKnown(ix: EvidenceIndex, names: seq<string>)
    requires Grounded(ix)
    ensures KnownEvidence(ix, Flatten(RecordParts(AllObservations(ix), names)))
  {
    var indicators := Ascending(ix.byIndicator.Keys, IndicatorKey);
    AllAboutKnown(ix, indicators, |indicators|);
    RecordPartsKnown(ix, AllObservations(ix), names);
  }

  lemma CtDraftDerived(ix: EvidenceIndex, target: string)
    requires Grounded(ix) && CtDraft(ix, target).Some?
    ensures Derived(ix, CtDraft(ix, target).value)
  {
    SharedNameMembers(ix, target);
    SharedDerived(ix, target, SharedNames(ix, target), |CtNames(Shared.Covering(ix), target)|);
  }

  lemma SharedDerived(ix: EvidenceIndex, target: string, names: seq<string>, total: nat)
    requires Grounded(ix) && names == SharedNames(ix, target) && names != [] && |names| <= total
    ensures Derived(ix, NamesDraft(ix, names, total))
  {
    NamesKnown(ix, target);
    RecordedKnown(ix, names);
    LinkPartsExist(ix, names);
    SomeLink(ix, names);
    NamesDerived(ix, names, total);
  }

  lemma NamesDerived(ix: EvidenceIndex, names: seq<string>, total: nat)
    requires Wired(ix) && |names| <= total
    requires forall i :: 0 <= i < |names| ==> KnowsEntity(ix, DomainEntity(names[i]))
    requires KnownEvidence(ix, Flatten(RecordParts(AllObservations(ix), names)))
    requires ExistingLinks(ix, Flatten(LinkParts(ix, names))) && Flatten(LinkParts(ix, names)) != []
    ensures Derived(ix, NamesDraft(ix, names, total))
  {
  }

  /** No draft of these rules states a new fact. */
  lemma EmittedDerived(ix: EvidenceIndex)
    requires Grounded(ix)
    ensures AllDerived(ix, Emitted(ix))
  {
    match ix.target {
      case Domain(name) =>
        if DomainDraft(ix, name).Some? { DomainDraftDerived(ix, name); }
        if CtDraft(ix, name).Some? { CtDraftDerived(ix, name); }
        EmittingDerived(ix, DomainCertificate, DomainDraft(ix, name));
        EmittingDerived(ix, CtDnsNames, CtDraft(ix, name));
        DerivedConcat(ix, Emitting(DomainCertificate, DomainDraft(ix, name)), Emitting(CtDnsNames, CtDraft(ix, name)));
      case _ =>
    }
  }
}
