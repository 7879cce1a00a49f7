/** The typed data of an investigation: indicators, entities, observations,
    relationships, findings and source statuses (crates/core/src). Timestamps
    are integers, identifiers of observations are the integers their UUIDs
    stand for, and human-readable texts are left out where nothing depends on
    them. */
module Model {
  import opened Results
  import opened Ordering
  import opened Net

  /** The 128 bits of a UUID. */
  type ObservationId = U128
  type SourceId = string
  type Timestamp = int

  // -------------------------------------------------------------- indicators

  datatype Indicator =
    | Domain(name: string)
    | Ipv4(v4: U32)
    | Ipv6(v6: U128)
    | Url(url: string)
    | FileHash(algorithm: nat, digest: string)
  {
    function AsIp(): (r: Option<IpAddr>)
    {
      match this
      case Ipv4(a) => Some(IpAddr.V4(a))
      case Ipv6(a) => Some(IpAddr.V6(a))
      case _ => None
    }
  }

  /** Strict subdomain, respecting label boundaries. */
  predicate IsSubdomainOf(name: string, parent: string)
  {
    && |name| >= |parent| + 2
    && name[|name| - |parent|..] == parent
    && name[|name| - |parent| - 1] == '.'
  }

  // ---------------------------------------------------------------- entities

  datatype Entity =
    | IndicatorEntity(indicator: Indicator)
    | AutonomousSystem(asn: U32)
    | Network(prefix: IpPrefix)
    | Certificate(id: string)

  datatype EntityType =
    DomainType | Ipv4Type | Ipv6Type | UrlType | FileHashType | AutonomousSystemType | NetworkType | CertificateType
  {
    predicate IsIp() { Ipv4Type? || Ipv6Type? }
  }

  function TypeOf(e: Entity): (t: EntityType)
  {
    match e
    case IndicatorEntity(Domain(_)) => DomainType
    case IndicatorEntity(Ipv4(_)) => Ipv4Type
    case IndicatorEntity(Ipv6(_)) => Ipv6Type
    case IndicatorEntity(Url(_)) => UrlType
    case IndicatorEntity(FileHash(_, _)) => FileHashType
    case AutonomousSystem(_) => AutonomousSystemType
    case Network(_) => NetworkType
    case Certificate(_) => CertificateType
  }

  function IpOf(e: Entity): (r: Option<IpAddr>)
  {
    if e.IndicatorEntity? then e.indicator.AsIp() else None
  }

  // ----------------------------------------------------------- relationships

  datatype RelationKind =
    ResolvesTo | AliasOf | HasMailExchanger | HasNameserver | AnnouncedBy | RegisteredIn | CoversName | CoversWildcard

  function KindRank(k: RelationKind): (r: int)
  {
    match k
    case ResolvesTo => 0 case AliasOf => 1 case HasMailExchanger => 2 case HasNameserver => 3
    case AnnouncedBy => 4 case RegisteredIn => 5 case CoversName => 6 case CoversWildcard => 7
  }

  predicate Allows(kind: RelationKind, source: EntityType, target: EntityType)
  {
    match kind
    case ResolvesTo => source.DomainType? && target.IsIp()
    case AliasOf => source.DomainType? && target.DomainType?
    case HasMailExchanger => source.DomainType? && target.DomainType?
    case HasNameserver => source.DomainType? && target.DomainType?
    case AnnouncedBy => source.IsIp() && target.AutonomousSystemType?
    case RegisteredIn => source.IsIp() && target.NetworkType?
    case CoversName => source.CertificateType? && target.DomainType?
    case CoversWildcard => source.CertificateType? && target.DomainType?
  }

  datatype Edge = Edge(kind: RelationKind, source: Entity, target: Entity)

  datatype Relationship = Relationship(edge: Edge, evidence: seq<ObservationId>)

  // ------------------------------------------------------------ observations

  /** The payload, as far as correlation reads it. A DNS record carries its owner
      name, that name parsed as a domain, and whether it is an address record;
      a reputation summary carries the five engine counters. */
  datatype ObservationData =
    | DnsRecord(owner: string, ownerDomain: Option<string>, isAddress: bool)
    | AsnOrigin(announced: Option<IpPrefix>)
    | NetworkRegistration(queried: IpAddr, first: Option<IpAddr>, last: Option<IpAddr>)
    | IpReputation(totalReports: Option<nat>)
    | ProviderReputation(malicious: Option<nat>, suspicious: Option<nat>, undetected: Option<nat>,
                         harmless: Option<nat>, timeouts: Option<nat>)
    | ProviderListing
    | ProviderNoRecord
    | OtherData(what: string)

  datatype Observation = Observation(id: ObservationId, indicator: Indicator, source: SourceId,
                                     collectedAt: Timestamp, data: ObservationData, confidence: nat)

  datatype Finding = Finding(code: string, confidence: nat, evidence: seq<ObservationId>)

  // ----------------------------------------------------------------- statuses

  datatype TimeLimit = SourceLimit | InvestigationLimit

  datatype SourceOutcome =
    | Succeeded(observations: nat)
    | Partial(produced: nat, errors: seq<string>)
    | Unavailable
    | BudgetExhausted(budget: nat)
    | Unsupported
    | Failed(error: string)
    | TimedOut(limit: TimeLimit)
  {
    /** The outcome of a collector run, as opposed to a source that never ran. */
    predicate IsRun()
    {
      !Unavailable? && !Unsupported?
    }
  }

  const MAX_OUTCOME_ERRORS: nat := 20

  /** At most so many error texts of a partial outcome are kept. */
  function Bounded(o: SourceOutcome): (r: SourceOutcome)
  {
    if o.Partial? && |o.errors| > MAX_OUTCOME_ERRORS then o.(errors := o.errors[..MAX_OUTCOME_ERRORS]) else o
  }

  datatype SourceStatus = SourceStatus(source: SourceId, indicator: Indicator, outcome: SourceOutcome,
                                       startedAt: Timestamp, finishedAt: Timestamp)

  /** A clock that went backwards is clamped to the start. */
  function NewStatus(source: SourceId, indicator: Indicator, outcome: SourceOutcome,
                     startedAt: Timestamp, finishedAt: Timestamp): (r: SourceStatus)
    ensures r.startedAt <= r.finishedAt
  {
    SourceStatus(source, indicator, Bounded(outcome), startedAt,
                 if finishedAt >= startedAt then finishedAt else startedAt)
  }

  /** At most twenty error texts, the first ones, of the same partial outcome. */
  predicate FirstErrors(kept: SourceOutcome, given: SourceOutcome)
    requires kept.Partial? && given.Partial?
  {
    kept.produced == given.produced && kept.errors <= given.errors && |kept.errors| <= MAX_OUTCOME_ERRORS
  }

  /** A status keeps what it is given, but for two bounds: of many error texts the
      first twenty stay, and an end before the start becomes the start. */
  lemma StatusKeeps(source: SourceId, indicator: Indicator, outcome: SourceOutcome, startedAt: Timestamp, finishedAt: Timestamp)
    ensures var r := NewStatus(source, indicator, outcome, startedAt, finishedAt);
      && r.source == source && r.indicator == indicator && r.startedAt == startedAt
      && (r.finishedAt != finishedAt <==> finishedAt < startedAt) && (finishedAt < startedAt ==> r.finishedAt == startedAt)
      && r.outcome.IsRun() == outcome.IsRun()
      && (r.outcome != outcome <==> outcome.Partial? && |outcome.errors| > MAX_OUTCOME_ERRORS)
      && (r.outcome.Partial? ==> outcome.Partial? && FirstErrors(r.outcome, outcome))
  {
    var r := NewStatus(source, indicator, outcome, startedAt, finishedAt);
    if outcome.Partial? && |outcome.errors| > MAX_OUTCOME_ERRORS {
      assert |r.outcome.errors| == MAX_OUTCOME_ERRORS;
    }
  }

  // ------------------------------------------------------------------ orders

  function Codes(s: string): (r: seq<int>)
    ensures |r| == |s| && forall i :: 0 <= i < |s| ==> r[i] == s[i] as int
  {
    seq(|s|, i requires 0 <= i < |s| => s[i] as int)
  }

  function IndicatorCode(i: Indicator): (r: seq<int>)
  {
    match i
    case Domain(name) => [0] + Codes(name)
    case Ipv4(a) => [1, a]
    case Ipv6(a) => [2, a]
    case Url(url) => [3] + Codes(url)
    case FileHash(algorithm, digest) => [4, algorithm] + Codes(digest)
  }

  function IpCode(ip: IpAddr): (r: seq<int>)
  {
    match ip case V4(b) => [0, b] case V6(b) => [1, b]
  }

  /** The derived order of entities: variant first, then the payload. */
  function EntityCode(e: Entity): (r: seq<int>)
  {
    match e
    case IndicatorEntity(i) => [0] + IndicatorCode(i)
    case AutonomousSystem(n) => [1, n]
    case Network(p) => [2] + IpCode(p.network) + [p.len]
    case Certificate(id) => [3] + Codes(id)
  }

  lemma CodesInjective(s: string, t: string)
    requires Codes(s) == Codes(t)
    ensures s == t
  {
    assert |s| == |t|;
    forall i | 0 <= i < |s| ensures s[i] == t[i] {
      assert Codes(s)[i] == Codes(t)[i];
    }
  }

  lemma IndicatorCodeInjective(a: Indicator, b: Indicator)
    requires IndicatorCode(a) == IndicatorCode(b)
    ensures a == b
  {
    var x, y := IndicatorCode(a), IndicatorCode(b);
    assert x[0] == y[0];
    match a {
      case Domain(n) => assert x[1..] == Codes(n) && y[1..] == Codes(b.name); CodesInjective(n, b.name);
      case Url(u) => assert x[1..] == Codes(u) && y[1..] == Codes(b.url); CodesInjective(u, b.url);
      case FileHash(h, d) =>
        assert x[1] == y[1];
        assert x[2..] == Codes(d) && y[2..] == Codes(b.digest);
        CodesInjective(d, b.digest);
      case Ipv4(v) => assert x[1] == y[1];
      case Ipv6(v) => assert x[1] == y[1];
    }
  }

  lemma EntityCodeInjective(a: Entity, b: Entity)
    requires EntityCode(a) == EntityCode(b)
    ensures a == b
  {
    var x, y := EntityCode(a), EntityCode(b);
    assert x[0] == y[0];
    match a {
      case IndicatorEntity(i) =>
        assert x[1..] == IndicatorCode(i) && y[1..] == IndicatorCode(b.indicator);
        IndicatorCodeInjective(i, b.indicator);
      case AutonomousSystem(n) => assert x[1] == y[1];
      case Network(p) =>
        assert x[1] == y[1] && x[2] == y[2] && x[3] == y[3];
      case Certificate(id) =>
        assert x[1..] == Codes(id) && y[1..] == Codes(b.id);
        CodesInjective(id, b.id);
    }
  }

  function EntityKey(e: Entity): (r: Key) { [EntityCode(e)] }
  function IndicatorKey(i: Indicator): (r: Key) { [IndicatorCode(i)] }
  function IdKey(id: ObservationId): (r: Key) { [[id]] }
  function EdgeKey(e: Edge): (r: Key) { [[KindRank(e.kind)], EntityCode(e.source), EntityCode(e.target)] }
  function RelationshipKey(r: Relationship): (k: Key) { EdgeKey(r.edge) }
  function ObservationKey(o: Observation): (k: Key) { [Codes(o.source), [o.collectedAt], [o.id]] }

  lemma EntityKeyInjective(a: Entity, b: Entity)
    requires EntityKey(a) == EntityKey(b)
    ensures a == b
  {
    assert EntityKey(a)[0] == EntityKey(b)[0];
    EntityCodeInjective(a, b);
  }

  lemma IndicatorKeyInjective(a: Indicator, b: Indicator)
    requires IndicatorKey(a) == IndicatorKey(b)
    ensures a == b
  {
    assert IndicatorKey(a)[0] == IndicatorKey(b)[0];
    IndicatorCodeInjective(a, b);
  }

  lemma EdgeKeyInjective(a: Edge, b: Edge)
    requires EdgeKey(a) == EdgeKey(b)
    ensures a == b
  {
    var x, y := EdgeKey(a), EdgeKey(b);
    assert x[0][0] == y[0][0] && x[1] == y[1] && x[2] == y[2];
    EntityCodeInjective(a.source, b.source);
    EntityCodeInjective(a.target, b.target);
  }

  lemma IdKeyInjective(a: ObservationId, b: ObservationId)
    requires IdKey(a) == IdKey(b)
    ensures a == b
  {
    assert IdKey(a)[0][0] == IdKey(b)[0][0];
  }

  lemma ObservationKeyId(a: Observation, b: Observation)
    requires ObservationKey(a) == ObservationKey(b)
    ensures a.id == b.id
  {
    assert ObservationKey(a)[2][0] == ObservationKey(b)[2][0];
  }
}
