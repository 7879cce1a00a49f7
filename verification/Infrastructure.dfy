/** The rule that connects a domain, its addresses and their routing and
    registration context (crates/correlation/src/rules/infrastructure.rs). */
module Infrastructure {
  import opened Results
  import opened Ordering
  import opened Net
  import opened Model
  import opened Index
  import opened IndexFacts
  import opened CorrelationIds
  import opened Drafts
  import opened Emissions

  // ------------------------------------------------------ what each one names

  /** The observations these links cite. */
  function CitedBy(links: seq<Relationship>): (r: set<ObservationId>)
  {
    set l, id | l in links && id in l.evidence :: id
  }

  /** The targets the links citing `id` name. */
  function NamedBy(links: seq<Relationship>, id: ObservationId): (r: set<Entity>)
  {
    set l | l in links && id in l.evidence :: l.edge.target
  }

  ghost function PerObservation(links: seq<Relationship>): (m: map<ObservationId, set<Entity>>)
  {
    map id | id in CitedBy(links) :: NamedBy(links, id)
  }

  function Note(m: map<ObservationId, set<Entity>>, id: ObservationId, target: Entity): (r: map<ObservationId, set<Entity>>)
  {
    m[id := (if id in m then m[id] else {}) + {target}]
  }

  /** `noted` is `m` with the target noted for these identifiers. */
  ghost predicate Notes(noted: map<ObservationId, set<Entity>>, m: map<ObservationId, set<Entity>>,
                        ids: seq<ObservationId>, target: Entity)
  {
    && (forall id :: id in noted <==> id in m || id in ids)
    && (forall id :: id in noted ==>
          noted[id] == (if id in m then m[id] else {}) + (if id in ids then {target} else {}))
  }

  lemma NotesStep(noted: map<ObservationId, set<Entity>>, m: map<ObservationId, set<Entity>>,
                  ids: seq<ObservationId>, target: Entity, id: ObservationId)
    requires Notes(noted, m, ids, target)
    ensures Notes(Note(noted, id, target), m, ids + [id], target)
  {
  }

  lemma NotesLink(noted: map<ObservationId, set<Entity>>, links: seq<Relationship>, l: Relationship)
    requires Notes(noted, PerObservation(links), l.evidence, l.edge.target)
    ensures noted == PerObservation(links + [l])
  {
    var m := PerObservation(links + [l]);
    assert forall x :: x in links + [l] <==> x in links || x == l;
    assert noted.Keys == m.Keys;
    forall id | id in m ensures noted[id] == m[id] {
      assert NamedBy(links + [l], id) == NamedBy(links, id) + (if id in l.evidence then {l.edge.target} else {});
      if id !in CitedBy(links) { assert NamedBy(links, id) == {}; }
    }
  }

  /** For each cited observation the ends that its links lead to. */
  method SupportedTargets(links: seq<Relationship>) returns (m: map<ObservationId, set<Entity>>)
    ensures m == PerObservation(links)
  {
    m := map[];
    for i := 0 to |links|
      invariant m == PerObservation(links[..i])
    {
      var link := links[i];
      ghost var before := m;
      for j := 0 to |link.evidence|
        invariant Notes(m, before, link.evidence[..j], link.edge.target)
      {
        NotesStep(m, before, link.evidence[..j], link.edge.target, link.evidence[j]);
        assert link.evidence[..j + 1] == link.evidence[..j] + [link.evidence[j]];
        m := Note(m, link.evidence[j], link.edge.target);
      }
      assert link.evidence[..|link.evidence|] == link.evidence;
      NotesLink(m, links[..i], link);
      assert links[..i + 1] == links[..i] + [link];
    }
    assert links[..|links|] == links;
  }

  // ------------------------------------------------------------ disagreement

  ghost function Disagreement(m: map<ObservationId, set<Entity>>, about: Dispute): (r: seq<Conflict>)
  {
    if |m.Values| > 1 then [Conflict(about, Ascending(m.Keys, IdKey))] else []
  }

  method FindDisagreement(m: map<ObservationId, set<Entity>>, about: Dispute) returns (r: seq<Conflict>)
    ensures r == Disagreement(m, about)
  {
    r := [];
    if |m.Values| > 1 {
      forall a, b | a in m.Keys && b in m.Keys && IdKey(a) == IdKey(b) ensures a == b { IdKeyInjective(a, b); }
      var evidence := ListAscending(m.Keys, IdKey);
      r := [Conflict(about, evidence)];
    }
  }

  lemma SidesDiffer(links: seq<Relationship>)
    ensures |PerObservation(links).Values| > 1 <==>
              exists a, b :: a in CitedBy(links) && b in CitedBy(links) && NamedBy(links, a) != NamedBy(links, b)
  {
    var m := PerObservation(links);
    TwoMembers(m.Values);
    if a, b :| a in CitedBy(links) && b in CitedBy(links) && NamedBy(links, a) != NamedBy(links, b) {
      assert m[a] in m.Values && m[b] in m.Values;
    }
    if x, y :| x in m.Values && y in m.Values && x != y {
      var a :| a in m && m[a] == x;
      var b :| b in m && m[b] == y;
      assert NamedBy(links, a) != NamedBy(links, b);
    }
  }

  /** A disagreement is recorded exactly when two cited observations name different
      sets of targets, and it cites every observation on every side. */
  lemma DisagreementExactly(links: seq<Relationship>, about: Dispute)
    ensures Disagreement(PerObservation(links), about) != [] <==>
              exists a, b :: a in CitedBy(links) && b in CitedBy(links) && NamedBy(links, a) != NamedBy(links, b)
    ensures forall c, id :: c in Disagreement(PerObservation(links), about) ==> (id in c.evidence <==> id in CitedBy(links))
  {
    SidesDiffer(links);
    DisagreementCites(PerObservation(links), about);
  }

  lemma DisagreementCites(m: map<ObservationId, set<Entity>>, about: Dispute)
    ensures forall c, id :: c in Disagreement(m, about) ==> (id in c.evidence <==> id in m.Keys)
    ensures forall c :: c in Disagreement(m, about) ==> c.evidence != []
  {
    if |m.Values| > 1 {
      var x :| x in m.Values;
      var id :| id in m && m[id] == x;
      assert id in Ascending(m.Keys, IdKey);
    }
  }

  predicate NamesSeveral(m: map<ObservationId, set<Entity>>)
  {
    exists id :: id in m && |m[id]| > 1
  }

  /** The multiple-origin caveat is added exactly when one observation supports two
      links with different targets. */
  lemma NamesSeveralExactly(links: seq<Relationship>)
    ensures NamesSeveral(PerObservation(links)) <==>
              exists k, l, id :: k in links && l in links && id in k.evidence && id in l.evidence &&
                                 k.edge.target != l.edge.target
  {
    var m := PerObservation(links);
    if id :| id in m && |m[id]| > 1 {
      TwoMembers(m[id]);
      var a, b :| a in m[id] && b in m[id] && a != b;
      var k :| k in links && id in k.evidence && k.edge.target == a;
      var l :| l in links && id in l.evidence && l.edge.target == b;
    }
    if k, l, id :| k in links && l in links && id in k.evidence && id in l.evidence && k.edge.target != l.edge.target {
      assert id in CitedBy(links);
      assert k.edge.target in NamedBy(links, id) && l.edge.target in NamedBy(links, id);
      TwoMembers(m[id]);
    }
  }

  // ------------------------------------------------------------- containment

  /** The routing prefix an observation reports. */
  function ReportedPrefix(ix: EvidenceIndex, id: ObservationId): (r: Option<IpPrefix>)
  {
    if id in ix.byId && ix.byId[id].data.AsnOrigin? then ix.byId[id].data.announced else None
  }

  /** Whether both ends of the range are known and the queried address lies
      between them; addresses of different families never do. */
  function RangeContainsQueried(data: ObservationData): (r: Option<bool>)
    requires data.NetworkRegistration?
  {
    match (data.first, data.last)
    case (Some(s), Some(e)) =>
      Some(match (s, e, data.queried)
           case (V4(a), V4(b), V4(ip)) => a <= ip <= b
           case (V6(a), V6(b), V6(ip)) => a <= ip <= b
           case _ => false)
    case _ => None
  }

  /** It is not known only when an end of the range is not; otherwise the address lies in
      the range exactly when it is of the family of both ends and between them. */
  lemma RangeContainsExactly(data: ObservationData)
    requires data.NetworkRegistration?
    ensures RangeContainsQueried(data).None? <==> data.first.None? || data.last.None?
    ensures RangeContainsQueried(data) == Some(true) <==>
              && data.first.Some? && data.last.Some?
              && SameFamily(data.first.value, data.queried) && SameFamily(data.last.value, data.queried)
              && Bits(data.first.value) <= Bits(data.queried) <= Bits(data.last.value)
  {
  }

  predicate RangeMisses(ix: EvidenceIndex, id: ObservationId)
  {
    id in ix.byId && ix.byId[id].data.NetworkRegistration? && RangeContainsQueried(ix.byId[id].data) == Some(false)
  }

  function Containing(ix: EvidenceIndex, ip: IpAddr, ids: seq<ObservationId>, n: nat): (r: seq<(IpPrefix, ObservationId)>)
    requires n <= |ids|
  {
    if n == 0 then []
    else
      Containing(ix, ip, ids, n - 1)
      + (match ReportedPrefix(ix, ids[n - 1])
         case Some(p) => if Contains(p, ip) then [(p, ids[n - 1])] else []
         case None => [])
  }

  function PrefixConflicts(ix: EvidenceIndex, ip: IpAddr, ids: seq<ObservationId>, n: nat): (r: seq<Conflict>)
    requires n <= |ids|
  {
    if n == 0 then []
    else
      PrefixConflicts(ix, ip, ids, n - 1)
      + (match ReportedPrefix(ix, ids[n - 1])
         case Some(p) => if Contains(p, ip) then [] else [Conflict(PrefixMissesAddress(p, ip), [ids[n - 1]])]
         case None => [])
  }

  function RangeConflicts(ix: EvidenceIndex, ip: IpAddr, ids: seq<ObservationId>, n: nat): (r: seq<Conflict>)
    requires n <= |ids|
  {
    if n == 0 then []
    else
      RangeConflicts(ix, ip, ids, n - 1)
      + (if RangeMisses(ix, ids[n - 1]) then [Conflict(RangeMissesAddress(ip), [ids[n - 1]])] else [])
  }

  /** The registered networks, each with the first observation that reports it. */
  function RegisteredPrefixes(links: seq<Relationship>): (r: seq<(IpPrefix, ObservationId)>)
  {
    if links == [] then []
    else
      var l := links[0];
      (if l.edge.target.Network? && l.evidence != [] then [(l.edge.target.prefix, l.evidence[0])] else [])
      + RegisteredPrefixes(links[1..])
  }

  function Prefixes(pairs: seq<(IpPrefix, ObservationId)>): (r: seq<IpPrefix>)
  {
    seq(|pairs|, i requires 0 <= i < |pairs| => pairs[i].0)
  }

  function Reporters(pairs: seq<(IpPrefix, ObservationId)>): (r: seq<ObservationId>)
  {
    seq(|pairs|, i requires 0 <= i < |pairs| => pairs[i].1)
  }

  predicate Isolated(bgp: IpPrefix, networks: seq<IpPrefix>)
  {
    networks != [] && !exists i :: 0 <= i < |networks| && Overlaps(bgp, networks[i])
  }

  function ApartConflicts(bgp: seq<(IpPrefix, ObservationId)>, registered: seq<(IpPrefix, ObservationId)>, ip: IpAddr, n: nat): (r: seq<Conflict>)
    requires n <= |bgp|
  {
    if n == 0 then []
    else
      var (prefix, id) := bgp[n - 1];
      ApartConflicts(bgp, registered, ip, n - 1)
      + (if Isolated(prefix, Prefixes(registered))
         then [Conflict(PrefixesApart(prefix, Prefixes(registered), ip), [id] + Reporters(registered))] else [])
  }

  ghost function Containment(ix: EvidenceIndex, ip: IpAddr, announced: seq<Relationship>, registered: seq<Relationship>): (r: seq<Conflict>)
  {
    var a, b := Ascending(CitedBy(announced), IdKey), Ascending(CitedBy(registered), IdKey);
    var bgp := Containing(ix, ip, a, |a|);
    PrefixConflicts(ix, ip, a, |a|) + RangeConflicts(ix, ip, b, |b|)
    + ApartConflicts(bgp, RegisteredPrefixes(registered), ip, |bgp|)
  }

  method AscendingEvidence(links: seq<Relationship>) returns (ids: seq<ObservationId>)
    ensures ids == Ascending(CitedBy(links), IdKey)
  {
    forall a: ObservationId, b: ObservationId | IdKey(a) == IdKey(b) ensures a == b { IdKeyInjective(a, b); }
    ids := ListAscending(CitedBy(links), IdKey);
  }

  /** The reported prefixes that contain the address, and a conflict for each one
      that does not. */
  method RoutingPrefixes(ix: EvidenceIndex, ip: IpAddr, ids: seq<ObservationId>)
    returns (bgp: seq<(IpPrefix, ObservationId)>, misses: seq<Conflict>)
    ensures bgp == Containing(ix, ip, ids, |ids|) && misses == PrefixConflicts(ix, ip, ids, |ids|)
  {
    bgp, misses := [], [];
    for i := 0 to |ids|
      invariant bgp == Containing(ix, ip, ids, i) && misses == PrefixConflicts(ix, ip, ids, i)
    {
      match ReportedPrefix(ix, ids[i]) {
        case None =>
        case Some(p) =>
          if Contains(p, ip) {
            bgp := bgp + [(p, ids[i])];
          } else {
            misses := misses + [Conflict(PrefixMissesAddress(p, ip), [ids[i]])];
          }
      }
    }
  }

  /** The three lists that `Containment` concatenates, one loop for each; what is in
      them is stated by `PrefixMissExactly`, `RangeMissExactly` and `ApartExactly`. */
  method FindContainment(ix: EvidenceIndex, ip: IpAddr, announced: seq<Relationship>, registered: seq<Relationship>) returns (r: seq<Conflict>)
    ensures r == Containment(ix, ip, announced, registered)
  {
    var ids := AscendingEvidence(announced);
    var bgp, misses := RoutingPrefixes(ix, ip, ids);
    var others := AscendingEvidence(registered);
    var ranges := RangeMissConflicts(ix, ip, others);
    var networks := RegisteredPrefixes(registered);
    var apart := ApartFrom(bgp, networks, ip);
    r := misses + ranges + apart;
  }

  method RangeMissConflicts(ix: EvidenceIndex, ip: IpAddr, ids: seq<ObservationId>) returns (r: seq<Conflict>)
    ensures r == RangeConflicts(ix, ip, ids, |ids|)
  {
    r := [];
    for i := 0 to |ids|
      invariant r == RangeConflicts(ix, ip, ids, i)
    {
      if RangeMisses(ix, ids[i]) { r := r + [Conflict(RangeMissesAddress(ip), [ids[i]])]; }
    }
  }

  method ApartFrom(bgp: seq<(IpPrefix, ObservationId)>, registered: seq<(IpPrefix, ObservationId)>, ip: IpAddr) returns (r: seq<Conflict>)
    ensures r == ApartConflicts(bgp, registered, ip, |bgp|)
  {
    r := [];
    for i := 0 to |bgp|
      invariant r == ApartConflicts(bgp, registered, ip, i)
    {
      var (prefix, id) := bgp[i];
      if registered != [] && !exists k :: 0 <= k < |registered| && Overlaps(prefix, registered[k].0) {
        NotOverlapping(prefix, registered);
        r := r + [Conflict(PrefixesApart(prefix, Prefixes(registered), ip), [id] + Reporters(registered))];
      } else {
        NotOverlapping(prefix, registered);
      }
    }
  }

  lemma NotOverlapping(prefix: IpPrefix, registered: seq<(IpPrefix, ObservationId)>)
    ensures Isolated(prefix, Prefixes(registered)) <==>
              registered != [] && !exists k :: 0 <= k < |registered| && Overlaps(prefix, registered[k].0)
  {
    var networks := Prefixes(registered);
    assert forall k :: 0 <= k < |registered| ==> networks[k] == registered[k].0;
  }

  /** A routing prefix is reported as apart from the registered networks exactly
      when no address lies both in it and in one of them. */
  lemma IsolatedExactly(bgp: IpPrefix, networks: seq<IpPrefix>)
    requires ValidPrefix(bgp) && forall i :: 0 <= i < |networks| ==> ValidPrefix(networks[i])
    ensures Isolated(bgp, networks) <==>
              networks != [] && forall i :: 0 <= i < |networks| ==> !ShareAddress(bgp, networks[i])
  {
    forall i | 0 <= i < |networks| ensures Overlaps(bgp, networks[i]) <==> ShareAddress(bgp, networks[i]) {
      OverlapsIsSharedAddress(bgp, networks[i]);
    }
  }

  lemma {:induction false} PrefixConflictMembers(ix: EvidenceIndex, ip: IpAddr, ids: seq<ObservationId>, n: nat)
    requires n <= |ids|
    ensures forall c :: c in PrefixConflicts(ix, ip, ids, n) <==>
              exists i :: 0 <= i < n && ReportedPrefix(ix, ids[i]).Some? && !Contains(ReportedPrefix(ix, ids[i]).value, ip) &&
                          c == Conflict(PrefixMissesAddress(ReportedPrefix(ix, ids[i]).value, ip), [ids[i]])
  {
    if n > 0 { PrefixConflictMembers(ix, ip, ids, n - 1); }
  }

  lemma {:induction false} RangeConflictMembers(ix: EvidenceIndex, ip: IpAddr, ids: seq<ObservationId>, n: nat)
    requires n <= |ids|
    ensures forall c :: c in RangeConflicts(ix, ip, ids, n) <==>
              exists i :: 0 <= i < n && RangeMisses(ix, ids[i]) && c == Conflict(RangeMissesAddress(ip), [ids[i]])
  {
    if n > 0 { RangeConflictMembers(ix, ip, ids, n - 1); }
  }

  lemma {:induction false} ContainingMembers(ix: EvidenceIndex, ip: IpAddr, ids: seq<ObservationId>, n: nat)
    requires n <= |ids|
    ensures forall p :: p in Containing(ix, ip, ids, n) <==>
              exists i :: 0 <= i < n && ReportedPrefix(ix, ids[i]) == Some(p.0) && Contains(p.0, ip) && p.1 == ids[i]
  {
    if n > 0 { ContainingMembers(ix, ip, ids, n - 1); }
  }

  lemma {:induction false} ApartConflictMembers(bgp: seq<(IpPrefix, ObservationId)>, registered: seq<(IpPrefix, ObservationId)>, ip: IpAddr, n: nat)
    requires n <= |bgp|
    ensures forall c :: c in ApartConflicts(bgp, registered, ip, n) <==>
              exists i :: 0 <= i < n && Isolated(bgp[i].0, Prefixes(registered)) &&
                          c == Conflict(PrefixesApart(bgp[i].0, Prefixes(registered), ip), [bgp[i].1] + Reporters(registered))
  {
    if n > 0 { ApartConflictMembers(bgp, registered, ip, n - 1); }
  }

  ghost function Announcing(ix: EvidenceIndex, ip: IpAddr, announced: seq<Relationship>): (r: seq<(IpPrefix, ObservationId)>)
  {
    var a := Ascending(CitedBy(announced), IdKey);
    Containing(ix, ip, a, |a|)
  }

  /** The three parts of the containment conflicts are told apart by their kind. */
  lemma ContainmentParts(ix: EvidenceIndex, ip: IpAddr, announced: seq<Relationship>, registered: seq<Relationship>, c: Conflict)
    ensures var a, b := Ascending(CitedBy(announced), IdKey), Ascending(CitedBy(registered), IdKey);
      var bgp := Announcing(ix, ip, announced);
      c in Containment(ix, ip, announced, registered) <==>
        match c.about
        case PrefixMissesAddress(_, _) => c in PrefixConflicts(ix, ip, a, |a|)
        case RangeMissesAddress(_) => c in RangeConflicts(ix, ip, b, |b|)
        case PrefixesApart(_, _, _) => c in ApartConflicts(bgp, RegisteredPrefixes(registered), ip, |bgp|)
        case _ => false
  {
    var a, b := Ascending(CitedBy(announced), IdKey), Ascending(CitedBy(registered), IdKey);
    var bgp := Announcing(ix, ip, announced);
    PrefixKind(ix, ip, a);
    RangeKind(ix, ip, b);
    ApartKind(bgp, RegisteredPrefixes(registered), ip);
  }

  lemma PrefixKind(ix: EvidenceIndex, ip: IpAddr, ids: seq<ObservationId>)
    ensures forall c :: c in PrefixConflicts(ix, ip, ids, |ids|) ==> c.about.PrefixMissesAddress?
  {
    PrefixConflictMembers(ix, ip, ids, |ids|);
  }

  lemma RangeKind(ix: EvidenceIndex, ip: IpAddr, ids: seq<ObservationId>)
    ensures forall c :: c in RangeConflicts(ix, ip, ids, |ids|) ==> c.about.RangeMissesAddress?
  {
    RangeConflictMembers(ix, ip, ids, |ids|);
  }

  lemma ApartKind(bgp: seq<(IpPrefix, ObservationId)>, registered: seq<(IpPrefix, ObservationId)>, ip: IpAddr)
    ensures forall c :: c in ApartConflicts(bgp, registered, ip, |bgp|) ==> c.about.PrefixesApart?
  {
    ApartConflictMembers(bgp, registered, ip, |bgp|);
  }

  /** A prefix is reported as missing the address exactly when a cited observation
      reports it and it does not contain the address. */
  lemma PrefixMissExactly(ix: EvidenceIndex, ip: IpAddr, announced: seq<Relationship>, registered: seq<Relationship>,
                          p: IpPrefix, id: ObservationId)
    ensures Conflict(PrefixMissesAddress(p, ip), [id]) in Containment(ix, ip, announced, registered) <==>
              id in CitedBy(announced) && ReportedPrefix(ix, id) == Some(p) && !Contains(p, ip)
  {
    ContainmentParts(ix, ip, announced, registered, Conflict(PrefixMissesAddress(p, ip), [id]));
    PrefixMissMember(ix, ip, Ascending(CitedBy(announced), IdKey), p, id);
  }

  lemma PrefixMissMember(ix: EvidenceIndex, ip: IpAddr, ids: seq<ObservationId>, p: IpPrefix, id: ObservationId)
    ensures Conflict(PrefixMissesAddress(p, ip), [id]) in PrefixConflicts(ix, ip, ids, |ids|) <==>
              id in ids && ReportedPrefix(ix, id) == Some(p) && !Contains(p, ip)
  {
    var c := Conflict(PrefixMissesAddress(p, ip), [id]);
    PrefixConflictMembers(ix, ip, ids, |ids|);
    assert c.evidence[0] == id;
    if id in ids { var i :| 0 <= i < |ids| && ids[i] == id; }
  }

  /** A range is reported as missing the address exactly when a cited registration
      says so. */
  lemma RangeMissExactly(ix: EvidenceIndex, ip: IpAddr, announced: seq<Relationship>, registered: seq<Relationship>, id: ObservationId)
    ensures Conflict(RangeMissesAddress(ip), [id]) in Containment(ix, ip, announced, registered) <==>
              id in CitedBy(registered) && RangeMisses(ix, id)
  {
    ContainmentParts(ix, ip, announced, registered, Conflict(RangeMissesAddress(ip), [id]));
    RangeMissMember(ix, ip, Ascending(CitedBy(registered), IdKey), id);
  }

  lemma RangeMissMember(ix: EvidenceIndex, ip: IpAddr, ids: seq<ObservationId>, id: ObservationId)
    ensures Conflict(RangeMissesAddress(ip), [id]) in RangeConflicts(ix, ip, ids, |ids|) <==> id in ids && RangeMisses(ix, id)
  {
    var c := Conflict(RangeMissesAddress(ip), [id]);
    RangeConflictMembers(ix, ip, ids, |ids|);
    assert c.evidence[0] == id;
    if id in ids { var i :| 0 <= i < |ids| && ids[i] == id; }
  }

  lemma AnnouncingMembers(ix: EvidenceIndex, ip: IpAddr, announced: seq<Relationship>, p: IpPrefix, id: ObservationId)
    ensures (p, id) in Announcing(ix, ip, announced) <==>
              id in CitedBy(announced) && ReportedPrefix(ix, id) == Some(p) && Contains(p, ip)
  {
    var a := Ascending(CitedBy(announced), IdKey);
    ContainingMembers(ix, ip, a, |a|);
    if id in a { var i :| 0 <= i < |a| && a[i] == id; }
  }

  /** A routing prefix is reported as apart from the registered networks exactly
      when a cited observation reports it, it contains the address, and it
      overlaps none of them. */
  lemma ApartExactly(ix: EvidenceIndex, ip: IpAddr, announced: seq<Relationship>, registered: seq<Relationship>,
                     p: IpPrefix, id: ObservationId)
    ensures var networks := RegisteredPrefixes(registered);
      Conflict(PrefixesApart(p, Prefixes(networks), ip), [id] + Reporters(networks)) in Containment(ix, ip, announced, registered)
      <==> id in CitedBy(announced) && ReportedPrefix(ix, id) == Some(p) && Contains(p, ip) && Isolated(p, Prefixes(networks))
  {
    var networks, bgp := RegisteredPrefixes(registered), Announcing(ix, ip, announced);
    var c := Conflict(PrefixesApart(p, Prefixes(networks), ip), [id] + Reporters(networks));
    ContainmentParts(ix, ip, announced, registered, c);
    AnnouncingMembers(ix, ip, announced, p, id);
    ApartMember(bgp, networks, ip, p, id);
  }

  lemma ApartMember(bgp: seq<(IpPrefix, ObservationId)>, networks: seq<(IpPrefix, ObservationId)>, ip: IpAddr,
                    p: IpPrefix, id: ObservationId)
    ensures Conflict(PrefixesApart(p, Prefixes(networks), ip), [id] + Reporters(networks)) in ApartConflicts(bgp, networks, ip, |bgp|)
            <==> (p, id) in bgp && Isolated(p, Prefixes(networks))
  {
    ApartConflictMembers(bgp, networks, ip, |bgp|);
    var c := Conflict(PrefixesApart(p, Prefixes(networks), ip), [id] + Reporters(networks));
    assert c.evidence[0] == id;
    forall i | 0 <= i < |bgp| && c == Conflict(PrefixesApart(bgp[i].0, Prefixes(networks), ip), [bgp[i].1] + Reporters(networks))
      ensures bgp[i] == (p, id)
    {
      assert ([bgp[i].1] + Reporters(networks))[0] == bgp[i].1;
    }
    if (p, id) in bgp { var i :| 0 <= i < |bgp| && bgp[i] == (p, id); }
  }

  // --------------------------------------------------------------------- rule

  function Targets(links: seq<Relationship>): (r: seq<Entity>)
  {
    seq(|links|, i requires 0 <= i < |links| => links[i].edge.target)
  }

  ghost function Conflicts(ix: EvidenceIndex, ip: IpAddr, announced: seq<Relationship>, registered: seq<Relationship>): (r: seq<Conflict>)
  {
    var asns, networks := PerObservation(announced), PerObservation(registered);
    Disagreement(asns, OriginsDiffer(ip, asns.Values)) + Disagreement(networks, NetworksDiffer(ip, networks.Values))
    + Containment(ix, ip, announced, registered)
  }

  function Gaps(ix: EvidenceIndex, ip: IpAddr, subject: Indicator, announced: seq<Relationship>, registered: seq<Relationship>): (r: seq<Gap>)
  {
    (if announced == [] then [NoOrigin(ip, UnsuccessfulSources(ix, subject))] else [])
    + (if registered == [] then [NoNetwork(ip, UnsuccessfulSources(ix, subject))] else [])
  }

  function Caveats(several: bool): (r: seq<Caveat>)
  {
    if several then [RoutingIsNotOwnership, MultipleOrigins] else [RoutingIsNotOwnership]
  }

  ghost function ContextDraft(ix: EvidenceIndex, resolves: Relationship, ip: IpAddr, subject: Indicator,
                              announced: seq<Relationship>, registered: seq<Relationship>): (d: Draft)
  {
    Draft([resolves.edge.source, resolves.edge.target] + Targets(announced + registered),
          [resolves] + (announced + registered), [], [], Conflicts(ix, ip, announced, registered),
          Gaps(ix, ip, subject, announced, registered), Caveats(NamesSeveral(PerObservation(announced))))
  }

  /** The draft for one resolution, if its address has any context. */
  ghost function DraftFor(ix: EvidenceIndex, resolves: Relationship): (r: Option<Draft>)
    requires Wired(ix)
  {
    var target := resolves.edge.target;
    match IpOf(target)
    case None => None
    case Some(ip) =>
      var announced, registered := From(ix, AnnouncedBy, target), From(ix, RegisteredIn, target);
      if announced == [] && registered == [] then None
      else Some(ContextDraft(ix, resolves, ip, target.indicator, announced, registered))
  }

  ghost function Drafted(ix: EvidenceIndex, resolutions: seq<Relationship>, n: nat): (r: seq<Emission>)
    requires Wired(ix) && n <= |resolutions|
  {
    if n == 0 then []
    else Drafted(ix, resolutions, n - 1) + Emitting(DomainIpInfrastructure, DraftFor(ix, resolutions[n - 1]))
  }

  ghost function DraftParts(ix: EvidenceIndex, resolutions: seq<Relationship>): (r: seq<seq<Emission>>)
    requires Wired(ix)
  {
    seq(|resolutions|, i requires 0 <= i < |resolutions| =>
      Emitting(DomainIpInfrastructure, DraftFor(ix, resolutions[i])))
  }

  ghost function DraftStages(ix: EvidenceIndex, resolutions: seq<Relationship>): (r: seq<seq<Emission>>)
    requires Wired(ix)
  {
    seq(|resolutions| + 1, i requires 0 <= i <= |resolutions| => Drafted(ix, resolutions, i))
  }

  lemma DraftsStaged(ix: EvidenceIndex, resolutions: seq<Relationship>)
    requires Wired(ix)
    ensures Staged(DraftStages(ix, resolutions), DraftParts(ix, resolutions))
  {
  }

  ghost function Emitted(ix: EvidenceIndex): (r: seq<Emission>)
    requires Wired(ix)
  {
    var resolutions := OfKind(ix, ResolvesTo);
    Drafted(ix, resolutions, |resolutions|)
  }

  method ConflictsOf(ix: EvidenceIndex, ip: IpAddr, announced: seq<Relationship>, registered: seq<Relationship>,
                     asns: map<ObservationId, set<Entity>>) returns (r: seq<Conflict>)
    requires asns == PerObservation(announced)
    ensures r == Conflicts(ix, ip, announced, registered)
  {
    var networks := SupportedTargets(registered);
    var origins := FindDisagreement(asns, OriginsDiffer(ip, asns.Values));
    var registrations := FindDisagreement(networks, NetworksDiffer(ip, networks.Values));
    var contained := FindContainment(ix, ip, announced, registered);
    r := origins + registrations + contained;
  }

  method GapsOf(ix: EvidenceIndex, ip: IpAddr, subject: Indicator, announced: seq<Relationship>, registered: seq<Relationship>) returns (r: seq<Gap>)
    ensures r == Gaps(ix, ip, subject, announced, registered)
  {
    r := [];
    if announced == [] { r := r + [NoOrigin(ip, UnsuccessfulSources(ix, subject))]; }
    if registered == [] { r := r + [NoNetwork(ip, UnsuccessfulSources(ix, subject))]; }
  }

  /** The draft for an address with some context. */
  method WithContext(ix: EvidenceIndex, resolves: Relationship, ip: IpAddr, subject: Indicator,
                     announced: seq<Relationship>, registered: seq<Relationship>) returns (d: Draft)
    ensures d == ContextDraft(ix, resolves, ip, subject, announced, registered)
  {
    var subjects, links := [resolves.edge.source, resolves.edge.target], [resolves];
    var both := announced + registered;
    for i := 0 to |both|
      invariant subjects == [resolves.edge.source, resolves.edge.target] + Targets(both[..i])
      invariant links == [resolves] + both[..i]
    {
      assert Targets(both[..i + 1]) == Targets(both[..i]) + [both[i].edge.target];
      subjects := subjects + [both[i].edge.target];
      links := links + [both[i]];
    }
    assert both[..|both|] == both;
    var asns := SupportedTargets(announced);
    var limitations := Caveats(NamesSeveral(asns));
    var conflicts := ConflictsOf(ix, ip, announced, registered, asns);
    var gaps := GapsOf(ix, ip, subject, announced, registered);
    d := Draft(subjects, links, [], [], conflicts, gaps, limitations);
  }

  /** The draft for one resolution. */
  method ForResolution(ix: EvidenceIndex, resolves: Relationship) returns (d: Option<Draft>)
    requires Wired(ix)
    ensures d == DraftFor(ix, resolves)
  {
    var target := resolves.edge.target;
    match IpOf(target) {
      case None => d := None;
      case Some(ip) =>
        var announced, registered := From(ix, AnnouncedBy, target), From(ix, RegisteredIn, target);
        if announced == [] && registered == [] { return None; }
        var draft := WithContext(ix, resolves, ip, target.indicator, announced, registered);
        d := Some(draft);
    }
  }

  method Correlate(emit: Emit)
    requires emit.Valid() && Wired(emit.ix)
    modifies emit
    ensures emit.Valid() && emit.log == old(emit.log) + Emitted(emit.ix)
  {
    var ix := emit.ix;
    var resolutions := OfKind(ix, ResolvesTo);
    ghost var before := emit.log;
    for i := 0 to |resolutions|
      invariant emit.Valid() && emit.log == before + Drafted(ix, resolutions, i)
    {
      var d := ForResolution(ix, resolutions[i]);
      emit.PushIfAny(DomainIpInfrastructure, d);
      Appends(before, Drafted(ix, resolutions, i), Emitting(DomainIpInfrastructure, d));
    }
  }

  // ------------------------------------------------------------- no new facts

  lemma CitedKnown(ix: EvidenceIndex, links: seq<Relationship>, id: ObservationId)
    requires Grounded(ix) && ExistingLinks(ix, links) && id in CitedBy(links)
    ensures id in ix.byId
  {
    var l :| l in links && id in l.evidence;
    assert GroundedLink(ix, l);
  }

  lemma DisagreementKnown(ix: EvidenceIndex, links: seq<Relationship>, about: Dispute)
    requires Grounded(ix) && ExistingLinks(ix, links)
    ensures KnownConflicts(ix, Disagreement(PerObservation(links), about))
  {
    var m := PerObservation(links);
    DisagreementCites(m, about);
    forall id | id in m.Keys ensures id in ix.byId { CitedKnown(ix, links, id); }
  }

  lemma {:induction false} ReportersKnown(ix: EvidenceIndex, links: seq<Relationship>)
    requires Grounded(ix) && ExistingLinks(ix, links)
    ensures forall p :: p in RegisteredPrefixes(links) ==> p.1 in ix.byId
  {
    if links != [] {
      assert links == [links[0]] + links[1..];
      assert links[0] in links && GroundedLink(ix, links[0]);
      assert forall l :: l in links[1..] ==> l in links;
      ReportersKnown(ix, links[1..]);
    }
  }

  lemma CitedListKnown(ix: EvidenceIndex, links: seq<Relationship>)
    requires Grounded(ix) && ExistingLinks(ix, links)
    ensures KnownEvidence(ix, Ascending(CitedBy(links), IdKey))
  {
    forall id | id in CitedBy(links) ensures id in ix.byId { CitedKnown(ix, links, id); }
  }

  lemma PrefixMissesKnown(ix: EvidenceIndex, ip: IpAddr, ids: seq<ObservationId>)
    requires KnownEvidence(ix, ids)
    ensures KnownConflicts(ix, PrefixConflicts(ix, ip, ids, |ids|))
  {
    PrefixConflictMembers(ix, ip, ids, |ids|);
  }

  lemma RangeMissesKnown(ix: EvidenceIndex, ip: IpAddr, ids: seq<ObservationId>)
    requires KnownEvidence(ix, ids)
    ensures KnownConflicts(ix, RangeConflicts(ix, ip, ids, |ids|))
  {
    RangeConflictMembers(ix, ip, ids, |ids|);
  }

  lemma ContainmentKnown(ix: EvidenceIndex, ip: IpAddr, announced: seq<Relationship>, registered: seq<Relationship>)
    requires Grounded(ix) && ExistingLinks(ix, announced) && ExistingLinks(ix, registered)
    ensures KnownConflicts(ix, Containment(ix, ip, announced, registered))
  {
    var a, b := Ascending(CitedBy(announced), IdKey), Ascending(CitedBy(registered), IdKey);
    CitedListKnown(ix, announced);
    CitedListKnown(ix, registered);
    PrefixMissesKnown(ix, ip, a);
    RangeMissesKnown(ix, ip, b);
    ApartKnown(ix, ip, a, registered);
  }

  lemma ApartKnown(ix: EvidenceIndex, ip: IpAddr, a: seq<ObservationId>, registered: seq<Relationship>)
    requires Grounded(ix) && KnownEvidence(ix, a) && ExistingLinks(ix, registered)
    ensures var bgp := Containing(ix, ip, a, |a|);
      KnownConflicts(ix, ApartConflicts(bgp, RegisteredPrefixes(registered), ip, |bgp|))
  {
    var bgp, networks := Containing(ix, ip, a, |a|), RegisteredPrefixes(registered);
    ContainingMembers(ix, ip, a, |a|);
    ReportersKnown(ix, registered);
    ApartConflictMembers(bgp, networks, ip, |bgp|);
    forall id | id in Reporters(networks) ensures id in ix.byId {
      var i :| 0 <= i < |networks| && Reporters(networks)[i] == id;
      assert networks[i] in networks;
    }
    assert forall i :: 0 <= i < |bgp| ==> bgp[i] in bgp;
  }

  lemma ConflictsKnown(ix: EvidenceIndex, ip: IpAddr, announced: seq<Relationship>, registered: seq<Relationship>)
    requires Grounded(ix) && ExistingLinks(ix, announced) && ExistingLinks(ix, registered)
    ensures KnownConflicts(ix, Conflicts(ix, ip, announced, registered))
  {
    DisagreementKnown(ix, announced, OriginsDiffer(ip, PerObservation(announced).Values));
    DisagreementKnown(ix, registered, NetworksDiffer(ip, PerObservation(registered).Values));
    ContainmentKnown(ix, ip, announced, registered);
  }

  lemma ContextDerived(ix: EvidenceIndex, resolves: Relationship, ip: IpAddr, subject: Indicator,
                       announced: seq<Relationship>, registered: seq<Relationship>)
    requires Grounded(ix) && resolves in ix.relationships
    requires ExistingLinks(ix, announced) && ExistingLinks(ix, registered)
    ensures Derived(ix, ContextDraft(ix, resolves, ip, subject, announced, registered))
  {
    ConflictsKnown(ix, ip, announced, registered);
    assert GroundedLink(ix, resolves);
    TargetsKnown(ix, announced + registered);
  }

  /** A draft of this rule composes existing links only. */
  lemma DraftDerived(ix: EvidenceIndex, resolves: Relationship)
    requires Grounded(ix) && resolves in ix.relationships
    ensures DraftFor(ix, resolves).Some? ==> Derived(ix, DraftFor(ix, resolves).value)
  {
    var target := resolves.edge.target;
    if DraftFor(ix, resolves).Some? {
      LookupMembers(ix, AnnouncedBy, target);
      LookupMembers(ix, RegisteredIn, target);
      ContextDerived(ix, resolves, IpOf(target).value, target.indicator, From(ix, AnnouncedBy, target), From(ix, RegisteredIn, target));
    }
  }

  lemma TargetsKnown(ix: EvidenceIndex, links: seq<Relationship>)
    requires Grounded(ix) && ExistingLinks(ix, links)
    ensures SubjectsKnown(ix, Targets(links))
  {
    forall e | e in Targets(links) ensures KnowsEntity(ix, e) {
      var i :| 0 <= i < |links| && Targets(links)[i] == e;
      assert links[i] in links && GroundedLink(ix, links[i]);
    }
  }

  lemma {:induction false} DraftedDerived(ix: EvidenceIndex, resolutions: seq<Relationship>, n: nat)
    requires Grounded(ix) && ExistingLinks(ix, resolutions) && n <= |resolutions|
    ensures AllDerived(ix, Drafted(ix, resolutions, n))
  {
    if n > 0 {
      DraftedDerived(ix, resolutions, n - 1);
      assert resolutions[n - 1] in resolutions;
      DraftDerived(ix, resolutions[n - 1]);
    }
  }

  /** No draft of this rule states a new fact. */
  lemma EmittedDerived(ix: EvidenceIndex)
    requires Grounded(ix)
    ensures AllDerived(ix, Emitted(ix))
  {
    var resolutions := OfKind(ix, ResolvesTo);
    OfKindMembers(ix, ResolvesTo);
    DraftedDerived(ix, resolutions, |resolutions|);
  }
}
