/** The byte string a correlation identifier is a hash of
    (crates/correlation/src/model.rs), and when it tells correlations apart.
    The hash and the display form of entities are parameters. */
module CorrelationIds {
  import opened Model

  type Bytes = seq<int>

  datatype CorrelationKind =
    DomainIpInfrastructure | DomainCertificate | CtDnsNames | MultipleSources | SourceDisagreement | SharedInfrastructure

  function CorrelationRank(k: CorrelationKind): (r: int)
  {
    match k
    case DomainIpInfrastructure => 0 case DomainCertificate => 1 case CtDnsNames => 2
    case MultipleSources => 3 case SourceDisagreement => 4 case SharedInfrastructure => 5
  }

  function KindText(k: CorrelationKind): (r: string)
    ensures '\U{1f}' !in r
  {
    match k
    case DomainIpInfrastructure => "domain_ip_infrastructure"
    case DomainCertificate => "domain_certificate"
    case CtDnsNames => "ct_dns_names"
    case MultipleSources => "multiple_sources"
    case SourceDisagreement => "source_disagreement"
    case SharedInfrastructure => "shared_infrastructure"
  }

  function TypeText(t: EntityType): (r: string)
    ensures '\U{1f}' !in r && ':' !in r
  {
    match t
    case DomainType => "domain" case Ipv4Type => "ipv4" case Ipv6Type => "ipv6" case UrlType => "url"
    case FileHashType => "file_hash" case AutonomousSystemType => "autonomous_system"
    case NetworkType => "network" case CertificateType => "certificate"
  }

  /** How entities are displayed and how byte strings are hashed. */
  datatype Naming = Naming(display: Entity -> Bytes, hash: Bytes -> nat)

  const UNIT: int := 0x1F
  const SUBJECT: int := 's' as int
  const EVIDENCE: int := 'e' as int
  const COLON: int := ':' as int

  // ----------------------------------------------------------------- encoding

  /** `n` bytes, the highest first. */
  function BigEndian(id: nat, n: nat): (r: Bytes)
    ensures |r| == n && forall i :: 0 <= i < n ==> 0 <= r[i] < 256
  {
    if n == 0 then [] else BigEndian(id / 256, n - 1) + [id % 256]
  }

  function SubjectBytes(display: Entity -> Bytes, e: Entity): (r: Bytes)
  {
    [UNIT, SUBJECT] + Codes(TypeText(TypeOf(e))) + [COLON] + display(e)
  }

  function AllSubjects(display: Entity -> Bytes, subjects: seq<Entity>): (r: Bytes)
  {
    if subjects == [] then [] else SubjectBytes(display, subjects[0]) + AllSubjects(display, subjects[1..])
  }

  function AllEvidence(ids: seq<ObservationId>): (r: Bytes)
  {
    if ids == [] then [] else [UNIT, EVIDENCE] + BigEndian(ids[0], 16) + AllEvidence(ids[1..])
  }

  /** What is fed to the hash. */
  function Encoded(display: Entity -> Bytes, kind: CorrelationKind, subjects: seq<Entity>, ids: seq<ObservationId>): (r: Bytes)
  {
    Codes(KindText(kind)) + AllSubjects(display, subjects) + AllEvidence(ids)
  }

  function Derive(naming: Naming, kind: CorrelationKind, subjects: seq<Entity>, ids: seq<ObservationId>): (id: nat)
  {
    naming.hash(Encoded(naming.display, kind, subjects, ids))
  }

  /** Feeds the hasher piece by piece. */
  method DeriveId(naming: Naming, kind: CorrelationKind, subjects: seq<Entity>, ids: seq<ObservationId>) returns (id: nat)
    ensures id == Derive(naming, kind, subjects, ids)
  {
    var display := naming.display;
    var fed := Codes(KindText(kind));
    ghost var kindText := fed;
    for i := 0 to |subjects|
      invariant fed + AllSubjects(display, subjects[i..]) == kindText + AllSubjects(display, subjects)
    {
      assert subjects[i..][1..] == subjects[i + 1..];
      Associative(fed, SubjectBytes(display, subjects[i]), AllSubjects(display, subjects[i + 1..]));
      fed := fed + SubjectBytes(display, subjects[i]);
    }
    ghost var head := fed;
    assert head == kindText + AllSubjects(display, subjects);
    for i := 0 to |ids|
      invariant fed + AllEvidence(ids[i..]) == head + AllEvidence(ids)
    {
      assert ids[i..][1..] == ids[i + 1..];
      Associative(fed, [UNIT, EVIDENCE] + BigEndian(ids[i], 16), AllEvidence(ids[i + 1..]));
      fed := fed + ([UNIT, EVIDENCE] + BigEndian(ids[i], 16));
    }
    assert fed == head + AllEvidence(ids);
    id := naming.hash(fed);
  }

  // -------------------------------------------------------------- injectivity

  /** The display texts of these entities never hold the separator and tell those of
      one type apart. */
  ghost predicate Readable(display: Entity -> Bytes, es: set<Entity>)
  {
    && (forall e :: e in es ==> UNIT !in display(e))
    && (forall a, b :: a in es && b in es && TypeOf(a) == TypeOf(b) && display(a) == display(b) ==> a == b)
  }

  /** A text without the separator ends where the first separator stands: what
      precedes `c` can be read back. */
  lemma {:induction false} Unsplit(a: Bytes, s: Bytes, b: Bytes, t: Bytes, c: int)
    requires c !in a && c !in b
    requires (s != [] ==> s[0] == c) && (t != [] ==> t[0] == c)
    requires a + s == b + t
    ensures a == b && s == t
  {
    SplitPoint(a, s, c);
    SplitPoint(b, t, c);
    var x := a + s;
    assert a == x[..|a|] && s == x[|a|..];
    var y := b + t;
    assert b == y[..|b|] && t == y[|b|..];
  }

  function UpTo(x: Bytes, c: int): (n: nat)
  {
    if x == [] || x[0] == c then 0 else 1 + UpTo(x[1..], c)
  }

  lemma {:induction false} SplitPoint(a: Bytes, s: Bytes, c: int)
    requires c !in a && (s != [] ==> s[0] == c)
    ensures UpTo(a + s, c) == |a|
  {
    if a == [] {
      assert a + s == s;
    } else {
      assert a[0] in a;
      assert (a + s)[1..] == a[1..] + s;
      SplitPoint(a[1..], s, c);
    }
  }

  lemma {:induction false} BigEndianInjective(a: nat, b: nat, n: nat)
    requires BigEndian(a, n) == BigEndian(b, n) && a < Power256(n) && b < Power256(n)
    ensures a == b
  {
    if n > 0 {
      var x, y := BigEndian(a, n), BigEndian(b, n);
      assert x[..n - 1] == BigEndian(a / 256, n - 1) && y[..n - 1] == BigEndian(b / 256, n - 1);
      assert x[n - 1] == a % 256 && y[n - 1] == b % 256;
      BigEndianInjective(a / 256, b / 256, n - 1);
    }
  }

  function Power256(n: nat): (r: nat)
  {
    if n == 0 then 1 else 256 * Power256(n - 1)
  }

  lemma SixteenBytes(id: ObservationId)
    ensures id < Power256(16)
  {
    assert Power256(4) == 0x1_0000_0000;
    assert Power256(8) == 0x1_0000_0000_0000_0000;
    assert Power256(12) == 0x1_0000_0000_0000_0000_0000_0000;
    assert Power256(16) == 0x1_0000_0000_0000_0000_0000_0000_0000_0000;
  }

  lemma {:induction false} EvidenceLength(ids: seq<ObservationId>)
    ensures |AllEvidence(ids)| == 18 * |ids|
  {
    if ids != [] { EvidenceLength(ids[1..]); }
  }

  lemma {:induction false} EvidenceInjective(a: seq<ObservationId>, b: seq<ObservationId>)
    requires AllEvidence(a) == AllEvidence(b)
    ensures a == b
  {
    EvidenceLength(a);
    EvidenceLength(b);
    if a != [] {
      var x, y := AllEvidence(a), AllEvidence(b);
      assert x[2..18] == BigEndian(a[0], 16) && y[2..18] == BigEndian(b[0], 16);
      assert x[18..] == AllEvidence(a[1..]) && y[18..] == AllEvidence(b[1..]);
      SixteenBytes(a[0]);
      SixteenBytes(b[0]);
      BigEndianInjective(a[0], b[0], 16);
      EvidenceInjective(a[1..], b[1..]);
      assert a == [a[0]] + a[1..] && b == [b[0]] + b[1..];
    }
  }

  lemma TypeTextInjective(a: EntityType, b: EntityType)
    requires TypeText(a) == TypeText(b)
    ensures a == b
  {
    assert TypeText(a)[0] == TypeText(b)[0];
    assert |TypeText(a)| == |TypeText(b)|;
  }

  lemma KindTextInjective(a: CorrelationKind, b: CorrelationKind)
    requires KindText(a) == KindText(b)
    ensures a == b
  {
    assert |KindText(a)| == |KindText(b)|;
    assert KindText(a)[0] == KindText(b)[0];
  }

  lemma TextsAreClean(k: CorrelationKind, t: EntityType)
    ensures UNIT !in Codes(KindText(k)) && UNIT !in Codes(TypeText(t)) && COLON !in Codes(TypeText(t))
  {
    CodesClean(KindText(k), '\U{1f}');
    CodesClean(TypeText(t), '\U{1f}');
    CodesClean(TypeText(t), ':');
  }

  lemma CodesClean(s: string, c: char)
    requires c !in s
    ensures c as int !in Codes(s)
  {
    forall i | 0 <= i < |s| ensures Codes(s)[i] != c as int {
      assert s[i] in s;
    }
  }

  function Tail(display: Entity -> Bytes, subjects: seq<Entity>, ids: seq<ObservationId>): (r: Bytes)
  {
    AllSubjects(display, subjects) + AllEvidence(ids)
  }

  lemma TailStarts(display: Entity -> Bytes, subjects: seq<Entity>, ids: seq<ObservationId>)
    ensures var t := Tail(display, subjects, ids);
      && (t != [] ==> t[0] == UNIT)
      && (subjects != [] <==> |t| >= 2 && t[1] == SUBJECT)
  {
    EvidenceLength(ids);
    if subjects == [] {
      assert Tail(display, subjects, ids) == AllEvidence(ids);
    } else {
      var b := SubjectBytes(display, subjects[0]);
      assert b[0] == UNIT && b[1] == SUBJECT;
      assert Tail(display, subjects, ids)[..|b|] == b;
    }
  }

  function SubjectText(display: Entity -> Bytes, e: Entity): (r: Bytes)
  {
    Codes(TypeText(TypeOf(e))) + [COLON] + display(e)
  }

  lemma SubjectHead(display: Entity -> Bytes, e: Entity)
    ensures SubjectBytes(display, e) == [UNIT, SUBJECT] + SubjectText(display, e)
  {
    var t := Codes(TypeText(TypeOf(e)));
    assert [UNIT, SUBJECT] + t + [COLON] + display(e) == [UNIT, SUBJECT] + (t + [COLON] + display(e));
  }

  lemma DropTwo(mark: Bytes, head: Bytes, rest: Bytes, end: Bytes)
    requires |mark| == 2
    ensures (mark + head + rest + end)[2..] == head + (rest + end)
  {
  }

  lemma Associative(a: Bytes, b: Bytes, c: Bytes)
    ensures a + b + c == a + (b + c)
  {
  }

  lemma TailStep(display: Entity -> Bytes, subjects: seq<Entity>, ids: seq<ObservationId>)
    requires subjects != []
    ensures |Tail(display, subjects, ids)| >= 2
    ensures Tail(display, subjects, ids)[2..] == SubjectText(display, subjects[0]) + Tail(display, subjects[1..], ids)
  {
    var head := SubjectText(display, subjects[0]);
    SubjectHead(display, subjects[0]);
    DropTwo([UNIT, SUBJECT], head, AllSubjects(display, subjects[1..]), AllEvidence(ids));
  }

  lemma SubjectTextInjective(display: Entity -> Bytes, es: set<Entity>, a: Entity, b: Entity)
    requires Readable(display, es) && a in es && b in es && SubjectText(display, a) == SubjectText(display, b)
    ensures a == b
  {
    var x, y := Codes(TypeText(TypeOf(a))), Codes(TypeText(TypeOf(b)));
    TextsAreClean(MultipleSources, TypeOf(a));
    TextsAreClean(MultipleSources, TypeOf(b));
    assert x + ([COLON] + display(a)) == SubjectText(display, a);
    assert y + ([COLON] + display(b)) == SubjectText(display, b);
    Unsplit(x, [COLON] + display(a), y, [COLON] + display(b), COLON);
    CodesInjective(TypeText(TypeOf(a)), TypeText(TypeOf(b)));
    TypeTextInjective(TypeOf(a), TypeOf(b));
    assert display(a) == ([COLON] + display(a))[1..] && display(b) == ([COLON] + display(b))[1..];
  }

  lemma SubjectTextClean(display: Entity -> Bytes, es: set<Entity>, e: Entity)
    requires Readable(display, es) && e in es
    ensures UNIT !in SubjectText(display, e)
  {
    TextsAreClean(MultipleSources, TypeOf(e));
  }

  lemma {:induction false} TailInjective(display: Entity -> Bytes, es: set<Entity>, a: seq<Entity>, ids: seq<ObservationId>,
                                         b: seq<Entity>, js: seq<ObservationId>)
    requires Readable(display, es) && (forall e :: e in a || e in b ==> e in es)
    requires Tail(display, a, ids) == Tail(display, b, js)
    ensures a == b && ids == js
  {
    TailStarts(display, a, ids);
    TailStarts(display, b, js);
    if a == [] {
      assert Tail(display, a, ids) == AllEvidence(ids) && Tail(display, b, js) == AllEvidence(js);
      EvidenceInjective(ids, js);
    } else {
      TailStep(display, a, ids);
      TailStep(display, b, js);
      SubjectTextClean(display, es, a[0]);
      SubjectTextClean(display, es, b[0]);
      TailStarts(display, a[1..], ids);
      TailStarts(display, b[1..], js);
      Unsplit(SubjectText(display, a[0]), Tail(display, a[1..], ids),
              SubjectText(display, b[0]), Tail(display, b[1..], js), UNIT);
      SubjectTextInjective(display, es, a[0], b[0]);
      TailInjective(display, es, a[1..], ids, b[1..], js);
      assert a == [a[0]] + a[1..] && b == [b[0]] + b[1..];
    }
  }

  /** The hashed byte string determines the kind, the subjects and the evidence,
      as long as these subjects are displayed without the separator byte and
      differently within a type. */
  lemma EncodingInjective(display: Entity -> Bytes, es: set<Entity>, k: CorrelationKind, a: seq<Entity>,
                          ids: seq<ObservationId>, l: CorrelationKind, b: seq<Entity>, js: seq<ObservationId>)
    requires Readable(display, es) && (forall e :: e in a || e in b ==> e in es)
    requires Encoded(display, k, a, ids) == Encoded(display, l, b, js)
    ensures k == l && a == b && ids == js
  {
    var x, y := Codes(KindText(k)), Codes(KindText(l));
    TextsAreClean(k, DomainType);
    TextsAreClean(l, DomainType);
    TailStarts(display, a, ids);
    TailStarts(display, b, js);
    Associative(x, AllSubjects(display, a), AllEvidence(ids));
    Associative(y, AllSubjects(display, b), AllEvidence(js));
    Unsplit(x, Tail(display, a, ids), y, Tail(display, b, js), UNIT);
    CodesInjective(KindText(k), KindText(l));
    KindTextInjective(k, l);
    TailInjective(display, es, a, ids, b, js);
  }
}
