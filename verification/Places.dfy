/** Positions that grow along a list: one number, or a number within a number. */
module Places {
  ghost predicate Ascends(places: seq<nat>)
  {
    forall k, l :: 0 <= k < l < |places| ==> places[k] < places[l]
  }

  lemma AppendPlace(places: seq<nat>, n: nat)
    requires Ascends(places) && forall i :: i in places ==> i < n
    ensures Ascends(places + [n]) && forall i :: i in places + [n] <==> i in places || i == n
  {
    forall k | 0 <= k < |places| ensures places[k] < n { assert places[k] in places; }
  }

  /** An item of an entry, by position. */
  datatype Spot = Spot(entry: nat, item: nat)

  predicate Precedes(p: Spot, q: Spot)
  {
    p.entry < q.entry || (p.entry == q.entry && p.item < q.item)
  }

  ghost predicate SpotsAscend(spots: seq<Spot>)
  {
    forall k, l :: 0 <= k < l < |spots| ==> Precedes(spots[k], spots[l])
  }

  /** These items of one entry. */
  function ItemsOf(entry: nat, places: seq<nat>): (r: seq<Spot>)
  {
    seq(|places|, k requires 0 <= k < |places| => Spot(entry, places[k]))
  }

  lemma ItemsOfMembers(entry: nat, places: seq<nat>)
    requires Ascends(places)
    ensures SpotsAscend(ItemsOf(entry, places))
    ensures forall p :: p in ItemsOf(entry, places) <==> p.entry == entry && p.item in places
  {
    var spots := ItemsOf(entry, places);
    forall p ensures p in spots <==> p.entry == entry && p.item in places {
      if p.entry == entry && p.item in places {
        var k :| 0 <= k < |places| && places[k] == p.item;
        assert spots[k] == p;
      }
    }
  }

  lemma AppendSpots(a: seq<Spot>, b: seq<Spot>, n: nat)
    requires SpotsAscend(a) && SpotsAscend(b)
    requires (forall p :: p in a ==> p.entry < n) && forall p :: p in b ==> p.entry == n
    ensures SpotsAscend(a + b) && forall p :: p in a + b <==> p in a || p in b
  {
    forall k, l | 0 <= k < l < |a + b| ensures Precedes((a + b)[k], (a + b)[l]) {
      if k < |a| && l >= |a| { assert a[k] in a && b[l - |a|] in b; }
    }
  }
}
