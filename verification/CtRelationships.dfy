/** Edges from observed certificates to the related names they list, up to a limit
    (crates/collectors/src/sources/ct/mod.rs). */
module CtRelationships {
  import opened Results
  import opened Places
  import opened CtNames
  import opened CtCertificates
  import opened Numerals
  import M = Model
  import Investigation

  datatype Observed = Observed(id: M.ObservationId, certificate: Certificate)

  predicate Covers(name: CertificateName)
  {
    name.relation.IsRelated() && name.normalized.Some?
  }

  function CoverEdge(o: Observed, name: CertificateName): (r: M.Relationship)
    requires o.certificate.entryId.Some? && Covers(name)
  {
    M.Relationship(
      M.Edge(if name.wildcard then M.CoversWildcard else M.CoversName,
             M.Certificate("crtsh:" + Numeral(o.certificate.entryId.value, 10)),
             M.IndicatorEntity(M.Domain(name.normalized.value))),
      [o.id])
  }

  /** The edges the first `n` names of a certificate call for. */
  function EdgesOf(o: Observed, n: nat): (r: seq<M.Relationship>)
    requires n <= |o.certificate.names|
  {
    if n == 0 || o.certificate.entryId.None? then []
    else
      EdgesOf(o, n - 1)
      + (if Covers(o.certificate.names[n - 1]) then [CoverEdge(o, o.certificate.names[n - 1])] else [])
  }

  function AllEdges(observed: seq<Observed>, n: nat): (r: seq<M.Relationship>)
    requires n <= |observed|
  {
    if n == 0 then [] else AllEdges(observed, n - 1) + EdgesOf(observed[n - 1], |observed[n - 1].certificate.names|)
  }

  function FirstEdges(s: seq<M.Relationship>): (r: seq<M.Relationship>)
    ensures r <= s && |r| <= MAX_RELATIONSHIPS
  {
    if |s| <= MAX_RELATIONSHIPS then s else s[..MAX_RELATIONSHIPS]
  }

  /** Relates the first five hundred edges and counts the others. */
  method AddRelationships(observed: seq<Observed>) returns (related: seq<M.Relationship>, dropped: nat)
    ensures var all := AllEdges(observed, |observed|);
            related == FirstEdges(all) && dropped == |all| - |related|
    ensures Relates(observed, related, dropped)
  {
    related, dropped := [], 0;
    for i := 0 to |observed|
      invariant related == FirstEdges(AllEdges(observed, i))
      invariant dropped == |AllEdges(observed, i)| - |related|
    {
      var o := observed[i];
      ghost var before := AllEdges(observed, i);
      if o.certificate.entryId.None? { continue; }
      for j := 0 to |o.certificate.names|
        invariant related == FirstEdges(before + EdgesOf(o, j))
        invariant dropped == |before + EdgesOf(o, j)| - |related|
      {
        var name := o.certificate.names[j];
        if !Covers(name) {
          assert EdgesOf(o, j + 1) == EdgesOf(o, j);
          continue;
        }
        assert before + EdgesOf(o, j + 1) == (before + EdgesOf(o, j)) + [CoverEdge(o, name)];
        if |related| >= MAX_RELATIONSHIPS {
          dropped := dropped + 1;
        } else {
          related := related + [CoverEdge(o, name)];
        }
      }
    }
    FirstRelated(observed, related, dropped);
  }

  // ------------------------------------------------------- what the edges say

  /** A certificate with an entry identifier lists a related, valid name there. */
  predicate ListsRelated(observed: seq<Observed>, p: Spot)
  {
    && p.entry < |observed|
    && p.item < |observed[p.entry].certificate.names|
    && observed[p.entry].certificate.entryId.Some?
    && var name := observed[p.entry].certificate.names[p.item];
       name.normalized.Some? && (name.relation.Exact? || name.relation.Wildcard? || name.relation.Subdomain?)
  }

  /** The relationship leads from the certificate to the domain it lists there, by a
      wildcard exactly when the name is one, and cites the certificate's observation. */
  ghost predicate Tells(observed: seq<Observed>, p: Spot, r: M.Relationship)
  {
    && ListsRelated(observed, p)
    && var o, name := observed[p.entry], observed[p.entry].certificate.names[p.item];
       && r.edge.source == M.Certificate("crtsh:" + Numeral(o.certificate.entryId.value, 10))
       && r.edge.target == M.IndicatorEntity(M.Domain(name.normalized.value))
       && (r.edge.kind.CoversWildcard? <==> name.wildcard) && (r.edge.kind.CoversName? <==> !name.wildcard)
       && r.evidence == [o.id]
  }

  /** The relationships are those of these spots, one each and in order. */
  ghost predicate Told(observed: seq<Observed>, spots: seq<Spot>, edges: seq<M.Relationship>)
  {
    && |spots| == |edges| && SpotsAscend(spots)
    && forall k :: 0 <= k < |edges| ==> Tells(observed, spots[k], edges[k])
  }

  /** What relating the certificates comes to: the related names, by certificate and
      name, have an edge each, the first five hundred of them, and the others are
      counted. */
  ghost predicate Relates(observed: seq<Observed>, related: seq<M.Relationship>, dropped: nat)
  {
    exists spots: seq<Spot> ::
      && SpotsAscend(spots) && (forall p :: p in spots <==> ListsRelated(observed, p))
      && |spots| == |related| + dropped && Told(observed, spots[..|related|], related)
      && |related| <= MAX_RELATIONSHIPS && (dropped > 0 ==> |related| == MAX_RELATIONSHIPS)
  }

  lemma {:induction false} SpotsOf(observed: seq<Observed>, i: nat, n: nat) returns (spots: seq<Spot>)
    requires i < |observed| && n <= |observed[i].certificate.names|
    ensures Told(observed, spots, EdgesOf(observed[i], n))
    ensures forall p :: p in spots <==> ListsRelated(observed, p) && p.entry == i && p.item < n
  {
    spots := [];
    if n > 0 && observed[i].certificate.entryId.Some? {
      spots := SpotsOf(observed, i, n - 1);
      if Covers(observed[i].certificate.names[n - 1]) { spots := spots + [Spot(i, n - 1)]; }
    }
  }

  lemma {:induction false} AllSpots(observed: seq<Observed>, n: nat) returns (spots: seq<Spot>)
    requires n <= |observed|
    ensures Told(observed, spots, AllEdges(observed, n))
    ensures forall p :: p in spots <==> ListsRelated(observed, p) && p.entry < n
  {
    spots := [];
    if n > 0 {
      var before := AllSpots(observed, n - 1);
      var next := SpotsOf(observed, n - 1, |observed[n - 1].certificate.names|);
      spots := before + next;
      AppendSpots(before, next, n - 1);
    }
  }

  lemma FirstRelated(observed: seq<Observed>, related: seq<M.Relationship>, dropped: nat)
    requires related == FirstEdges(AllEdges(observed, |observed|)) && dropped == |AllEdges(observed, |observed|)| - |related|
    ensures Relates(observed, related, dropped)
  {
    var spots := AllSpots(observed, |observed|);
    assert Told(observed, spots[..|related|], related);
  }

  /** When nothing is dropped there is an edge exactly for what the certificates list. */
  lemma RelatedExactly(observed: seq<Observed>, related: seq<M.Relationship>, r: M.Relationship)
    requires Relates(observed, related, 0)
    ensures r in related <==> exists p :: Tells(observed, p, r)
  {
    var spots: seq<Spot> :|
      && SpotsAscend(spots) && (forall p :: p in spots <==> ListsRelated(observed, p))
      && |spots| == |related| + 0 && Told(observed, spots[..|related|], related);
    assert spots[..|related|] == spots;
    ToldExactly(observed, spots, related, r);
  }

  lemma ToldExactly(observed: seq<Observed>, spots: seq<Spot>, edges: seq<M.Relationship>, r: M.Relationship)
    requires Told(observed, spots, edges) && forall p :: p in spots <==> ListsRelated(observed, p)
    ensures r in edges <==> exists p :: Tells(observed, p, r)
  {
    if r in edges {
      var k :| 0 <= k < |edges| && edges[k] == r;
      assert Tells(observed, spots[k], r);
    }
    if p :| Tells(observed, p, r) {
      var k :| 0 <= k < |spots| && spots[k] == p;
      ToldOnce(observed, p, r, edges[k]);
    }
  }

  lemma ToldOnce(observed: seq<Observed>, p: Spot, q: M.Relationship, r: M.Relationship)
    requires Tells(observed, p, q) && Tells(observed, p, r)
    ensures q == r
  {
    assert q.edge == r.edge;
  }

  /** No edge is refused by the relationship constructor, and each cites exactly
      the observation of its certificate. */
  lemma {:induction false} EdgesAreWellFormed(o: Observed, n: nat, k: nat)
    requires n <= |o.certificate.names| && k < |EdgesOf(o, n)|
    ensures Investigation.WellFormed(EdgesOf(o, n)[k]) && EdgesOf(o, n)[k].evidence == [o.id]
  {
    if k < |EdgesOf(o, n - 1)| { EdgesAreWellFormed(o, n - 1, k); }
  }
}
