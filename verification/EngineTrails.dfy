/** How indicators come to be visited. A trail is a chain of findings from the
    target in which nothing was found earlier on the chain. With places for
    everything the engine follows what a trail within the depth limit leads to, and
    rejects nothing else but what may not be investigated or is found beyond it. */
module EngineTrails {
  import opened Model
  import opened Investigation
  import opened EngineSpec
  import opened EngineInvariants
  import opened EngineSteps
  import opened EngineTheorems
  import opened EngineFindings

  // ------------------------------------------------------------------- trails

  /** Collector `k` runs on `v`, finds `p` there, and `p` may be investigated. */
  ghost predicate Reachable(e: Setup, found: Finds, target: Indicator, k: nat, v: Indicator, p: Indicator)
    requires k < |e.collectors|
  {
    RunsOn(e.collectors[k], v, target) && p in found(e.collectors[k].id, v) && e.investigable(p)
  }

  /** Collector `k` runs on `from` and finds `to`. */
  datatype Hop = Hop(k: nat, from: Indicator, to: Indicator)

  function EndOf(target: Indicator, t: seq<Hop>): (v: Indicator)
  {
    if t == [] then target else t[|t| - 1].to
  }

  /** The run of this hop finds `p`. */
  ghost predicate HopFinds(e: Setup, found: Finds, h: Hop, p: Indicator)
  {
    h.k < |e.collectors| && p in found(e.collectors[h.k].id, h.from)
  }

  /** The candidate is not the target, and no hop found it. */
  ghost predicate Unseen(e: Setup, found: Finds, target: Indicator, t: seq<Hop>, p: Indicator)
  {
    p != target && forall i :: 0 <= i < |t| ==> !HopFinds(e, found, t[i], p)
  }

  ghost predicate Trail(e: Setup, found: Finds, target: Indicator, t: seq<Hop>)
  {
    t == [] ||
    var init, h := t[..|t| - 1], t[|t| - 1];
    && Trail(e, found, target, init) && h.from == EndOf(target, init)
    && h.k < |e.collectors| && Reachable(e, found, target, h.k, h.from, h.to)
    && Unseen(e, found, target, init, h.to)
  }

  /** The trail stays within the depth limit; with the largest limit every trail
      does, because depth labels saturate there. */
  predicate Near(e: Setup, t: seq<Hop>)
  {
    |t| <= e.limits.maxDepth || e.limits.maxDepth == 255
  }

  /** The last hop of the trail is the first beyond the limit. */
  predicate Far(e: Setup, t: seq<Hop>)
  {
    |t| == e.limits.maxDepth + 1 && e.limits.maxDepth < 255
  }

  ghost predicate LeadsTo(e: Setup, found: Finds, target: Indicator, t: seq<Hop>, p: Indicator)
  {
    Trail(e, found, target, t) && EndOf(target, t) == p
  }

  ghost predicate FoundNear(e: Setup, found: Finds, target: Indicator, p: Indicator)
  {
    exists t :: LeadsTo(e, found, target, t, p) && Near(e, t)
  }

  ghost predicate FoundFar(e: Setup, found: Finds, target: Indicator, p: Indicator)
  {
    exists t :: LeadsTo(e, found, target, t, p) && Far(e, t)
  }

  lemma TrailSnoc(e: Setup, found: Finds, target: Indicator, t: seq<Hop>, h: Hop)
    requires Trail(e, found, target, t) && h.from == EndOf(target, t) && h.k < |e.collectors|
    requires Reachable(e, found, target, h.k, h.from, h.to) && Unseen(e, found, target, t, h.to)
    ensures LeadsTo(e, found, target, t + [h], h.to)
  {
    assert (t + [h])[..|t|] == t;
  }

  lemma {:induction false} TrailPrefix(e: Setup, found: Finds, target: Indicator, t: seq<Hop>, n: nat)
    requires Trail(e, found, target, t) && n <= |t|
    ensures Trail(e, found, target, t[..n])
    decreases |t|
  {
    if n < |t| {
      var init := t[..|t| - 1];
      TrailPrefix(e, found, target, init, n);
      assert init[..n] == t[..n];
    } else {
      assert t[..n] == t;
    }
  }

  // --------------------------------------------------------------- closed sets

  /** A set that holds the target and all that is found on its members and may be
      investigated. */
  ghost predicate Closed(e: Setup, found: Finds, target: Indicator, c: set<Indicator>)
  {
    && target in c
    && forall k, v, p :: 0 <= k < |e.collectors| && v in c && Reachable(e, found, target, k, v, p) ==> p in c
  }

  function EndsOf(target: Indicator, t: seq<Hop>): (r: set<Indicator>)
  {
    {target} + set h | h in t :: h.to
  }

  lemma {:induction false} TrailHops(e: Setup, found: Finds, target: Indicator, t: seq<Hop>, i: nat)
    requires Trail(e, found, target, t) && i < |t|
    ensures HopFinds(e, found, t[i], t[i].to)
    decreases |t|
  {
    if i < |t| - 1 { TrailHops(e, found, target, t[..|t| - 1], i); }
  }

  lemma EndsSnoc(target: Indicator, t: seq<Hop>, h: Hop)
    ensures EndsOf(target, t + [h]) == EndsOf(target, t) + {h.to}
  {
    assert forall x :: x in t + [h] <==> x in t || x == h;
  }

  lemma NewEnd(e: Setup, found: Finds, target: Indicator, t: seq<Hop>, p: Indicator)
    requires Trail(e, found, target, t) && Unseen(e, found, target, t, p)
    ensures p !in EndsOf(target, t)
  {
    forall i | 0 <= i < |t| ensures t[i].to != p { TrailHops(e, found, target, t, i); }
  }

  /** A trail comes to a new indicator with each hop. */
  lemma {:induction false} TrailSize(e: Setup, found: Finds, target: Indicator, t: seq<Hop>)
    requires Trail(e, found, target, t)
    ensures |EndsOf(target, t)| == |t| + 1
    decreases |t|
  {
    if t == [] {
      assert EndsOf(target, t) == {target};
    } else {
      var init, h := t[..|t| - 1], t[|t| - 1];
      TrailSize(e, found, target, init);
      NewEnd(e, found, target, init, h.to);
      EndsSnoc(target, init, h);
      assert t == init + [h];
    }
  }

  /** It leaves no closed set. */
  lemma {:induction false} TrailWithin(e: Setup, found: Finds, target: Indicator, t: seq<Hop>, c: set<Indicator>)
    requires Trail(e, found, target, t) && Closed(e, found, target, c)
    ensures EndsOf(target, t) <= c && EndOf(target, t) in c
    decreases |t|
  {
    if t != [] {
      var init, h := t[..|t| - 1], t[|t| - 1];
      TrailWithin(e, found, target, init, c);
      EndsSnoc(target, init, h);
      assert t == init + [h];
    }
  }

  // -------------------------------------------------------------------- places

  /** The limits leave a place for everything found within the depth limit, and no
      collector finds more candidates at once than are examined. This can be told
      from the collectors, what they find and the limits, before the run. */
  ghost predicate Places(e: Setup, found: Finds, target: Indicator, c: set<Indicator>)
  {
    && (forall p :: FoundNear(e, found, target, p) ==> p in c)
    && |c| <= 1 + e.limits.maxEntities
    && (forall k, v :: 0 <= k < |e.collectors| && v in c && RunsOn(e.collectors[k], v, target) ==>
          |found(e.collectors[k].id, v)| <= MAX_PIVOT_CANDIDATES)
  }

  /** Nothing is found both within the depth limit and beyond it. */
  ghost predicate OneSided(e: Setup, found: Finds, target: Indicator)
  {
    forall p :: !(FoundNear(e, found, target, p) && FoundFar(e, found, target, p))
  }

  /** A closed set that fits the number of pivots is large enough. */
  lemma ClosedPlaces(e: Setup, found: Finds, target: Indicator, c: set<Indicator>)
    requires Closed(e, found, target, c) && |c| <= 1 + e.limits.maxEntities
    requires forall k, v :: 0 <= k < |e.collectors| && v in c && RunsOn(e.collectors[k], v, target) ==>
               |found(e.collectors[k].id, v)| <= MAX_PIVOT_CANDIDATES
    ensures Places(e, found, target, c)
  {
    forall p | FoundNear(e, found, target, p) ensures p in c {
      var t :| LeadsTo(e, found, target, t, p) && Near(e, t);
      TrailWithin(e, found, target, t, c);
    }
  }

  /** If it also fits the depth limit, nothing is found beyond that. */
  lemma ClosedIsNear(e: Setup, found: Finds, target: Indicator, c: set<Indicator>, p: Indicator)
    requires Closed(e, found, target, c) && (|c| - 1 <= e.limits.maxDepth || e.limits.maxDepth == 255)
    ensures !FoundFar(e, found, target, p)
  {
    if t :| LeadsTo(e, found, target, t, p) && Far(e, t) {
      TrailWithin(e, found, target, t, c);
      TrailSize(e, found, target, t);
      SubsetSize(EndsOf(target, t), c);
    }
  }

  // ------------------------------------------------------- trails of a run so far

  /** The run of this hop is over. */
  ghost predicate Done(e: Setup, s: State, h: Hop)
  {
    h.k < |e.collectors| && exists i :: DoneAt(s, i, e.collectors[h.k].id, h.from)
  }

  ghost predicate DoneAt(s: State, i: nat, source: SourceId, v: Indicator)
  {
    i < |s.launches| && i !in s.pending && s.launches[i].source == source && s.launches[i].indicator == v
  }

  /** Runs on this indicator carry this depth. */
  ghost predicate Labelled(s: State, v: Indicator, depth: nat)
  {
    forall i :: 0 <= i < |s.launches| && s.launches[i].indicator == v ==> s.launches[i].depth == depth
  }

  /** A trail of finished runs explains why `v` is visited, and its depth. */
  ghost predicate Explored(e: Setup, found: Finds, s: State, v: Indicator, t: seq<Hop>)
  {
    && LeadsTo(e, found, s.store.target, t, v) && Near(e, t)
    && (forall j :: 0 <= j < |t| ==> Done(e, s, t[j]))
    && Labelled(s, v, Saturated(|t|))
  }

  ghost predicate Tracked(e: Setup, found: Finds, s: State)
  {
    forall v :: v in s.visited ==> exists t :: Explored(e, found, s, v, t)
  }

  /** Only candidates that may not be investigated or were found beyond the depth
      limit were rejected, and none was left unexamined. */
  ghost predicate Reasoned(e: Setup, found: Finds, s: State)
  {
    s.overflow == 0 && forall p :: p in s.dropped ==> !e.investigable(p) || FoundFar(e, found, s.store.target, p)
  }

  lemma TrackedNear(e: Setup, found: Finds, s: State, v: Indicator)
    requires Tracked(e, found, s) && v in s.visited
    ensures FoundNear(e, found, s.store.target, v)
  {
    var t :| Explored(e, found, s, v, t);
  }

  // ------------------------------------------------------------ following pivots

  lemma {:induction false} ScheduleLabels(e: Setup, s: State, ind: Indicator, depth: U8, origin: Origin, k: nat)
    requires k <= |e.collectors|
    ensures var r := Schedule(e, s, ind, depth, origin, k);
      && s.launches <= r.launches
      && forall j :: |s.launches| <= j < |r.launches| ==> r.launches[j].indicator == ind && r.launches[j].depth == depth
    decreases |e.collectors| - k
  {
    if k < |e.collectors| {
      OfferCases(e, s, ind, depth, origin, k);
      ScheduleLabels(e, Offer(e, s, e.collectors[k], ind, depth, origin), ind, depth, origin, k + 1);
    }
  }

  /** New runs are on newly visited indicators, at this depth. */
  ghost predicate NewRuns(s: State, r: State, depth: U8)
  {
    && s.launches <= r.launches && s.visited <= r.visited
    && forall j :: |s.launches| <= j < |r.launches| ==>
         r.launches[j].indicator !in s.visited && r.launches[j].depth == depth
  }

  lemma FollowLabels(e: Setup, s: State, pivot: Indicator, depth: U8, i: nat)
    ensures NewRuns(s, Follow(e, s, pivot, depth, FromRun(i)), depth)
  {
    if Enters(e, s, pivot, depth) {
      ScheduleLabels(e, Entered(s, pivot), pivot, depth, FromRun(i), 0);
      ScheduleFrame(e, Entered(s, pivot), pivot, depth, FromRun(i), 0);
    }
  }

  lemma {:induction false} FollowAllLabels(e: Setup, s: State, pivots: seq<Indicator>, depth: U8, i: nat)
    ensures NewRuns(s, FollowAll(e, s, pivots, depth, FromRun(i)), depth)
    decreases |pivots|
  {
    if pivots != [] {
      FollowLabels(e, s, pivots[0], depth, i);
      FollowAllLabels(e, Follow(e, s, pivots[0], depth, FromRun(i)), pivots[1..], depth, i);
    }
  }

  /** The set holds what is visited and every candidate that may be followed. */
  ghost predicate Fits(e: Setup, s: State, pivots: seq<Indicator>, c: set<Indicator>)
  {
    && s.visited <= c && |c| <= 1 + e.limits.maxEntities
    && forall p :: p in pivots && e.investigable(p) && p !in s.visited && p !in s.dropped ==> p in c
  }

  /** Within the depth limit only what may not be investigated is rejected. */
  ghost predicate Followable(e: Setup, s: State, r: State)
  {
    forall p :: p in r.dropped ==> p in s.dropped || !e.investigable(p)
  }

  lemma Unrejected(e: Setup, s: State, pivot: Indicator, depth: U8, c: set<Indicator>)
    requires s.visited <= c && pivot in c && pivot !in s.visited && |c| <= 1 + e.limits.maxEntities
    requires e.investigable(pivot) && depth <= e.limits.maxDepth
    ensures !Rejected(e, s, pivot, depth)
  {
    SubsetSize(s.visited + {pivot}, c);
  }

  lemma FollowFits(e: Setup, s: State, pivots: seq<Indicator>, depth: U8, i: nat, c: set<Indicator>)
    requires pivots != [] && Fits(e, s, pivots, c) && depth <= e.limits.maxDepth
    ensures var r := Follow(e, s, pivots[0], depth, FromRun(i)); Followable(e, s, r) && Fits(e, r, pivots[1..], c)
  {
    FollowGrows(e, s, pivots[0], depth, i);
    if e.investigable(pivots[0]) && pivots[0] !in s.visited && pivots[0] !in s.dropped {
      Unrejected(e, s, pivots[0], depth, c);
      ScheduleFrame(e, Entered(s, pivots[0]), pivots[0], depth, FromRun(i), 0);
    }
  }

  lemma {:induction false} FollowAllFits(e: Setup, s: State, pivots: seq<Indicator>, depth: U8, i: nat, c: set<Indicator>)
    requires Fits(e, s, pivots, c) && depth <= e.limits.maxDepth
    ensures Followable(e, s, FollowAll(e, s, pivots, depth, FromRun(i)))
    decreases |pivots|
  {
    if pivots != [] {
      FollowFits(e, s, pivots, depth, i, c);
      FollowAllFits(e, Follow(e, s, pivots[0], depth, FromRun(i)), pivots[1..], depth, i, c);
    }
  }

  lemma {:induction false} FollowAllTooDeep(e: Setup, s: State, pivots: seq<Indicator>, depth: U8, i: nat)
    requires depth > e.limits.maxDepth
    ensures FollowAll(e, s, pivots, depth, FromRun(i)).visited == s.visited
    decreases |pivots|
  {
    if pivots != [] {
      FollowAllTooDeep(e, Follow(e, s, pivots[0], depth, FromRun(i)), pivots[1..], depth, i);
    }
  }

  // ----------------------------------------------------------- one run more over

  lemma Saturates(n: nat)
    ensures Deeper(Saturated(n)) == Saturated(n + 1)
  {
  }

  /** The next hop of a trail within the limit is within it or the first beyond. */
  lemma NearOrFar(e: Setup, t: seq<Hop>, h: Hop)
    requires Near(e, t)
    ensures Near(e, t + [h]) <==> Saturated(|t| + 1) <= e.limits.maxDepth
    ensures !Near(e, t + [h]) ==> Far(e, t + [h])
  {
  }

  /** What the run of collector `k` finds and nobody decided on extends the trail. */
  lemma FindsExtend(e: Setup, found: Finds, s: State, v: Indicator, t: seq<Hop>, k: nat, p: Indicator)
    requires AllSettled(found, s) && s.overflow == 0 && s.store.target in s.visited && Explored(e, found, s, v, t)
    requires k < |e.collectors| && Reachable(e, found, s.store.target, k, v, p) && p !in s.visited && p !in s.dropped
    ensures LeadsTo(e, found, s.store.target, t + [Hop(k, v, p)], p)
  {
    forall j | 0 <= j < |t| ensures !HopFinds(e, found, t[j], p) {
      assert Done(e, s, t[j]);
      var i: nat :| DoneAt(s, i, e.collectors[t[j].k].id, t[j].from);
      assert Settles(found, s, i);
    }
    TrailSnoc(e, found, s.store.target, t, Hop(k, v, p));
  }

  /** Runs that are over stay over, and new ones are on newly visited indicators. */
  ghost predicate Continues(s: State, r: State, depth: U8)
  {
    && NewRuns(s, r, depth) && s.dropped <= r.dropped && r.store.target == s.store.target
    && forall i: nat :: i < |s.launches| && i !in s.pending ==> i !in r.pending
  }

  lemma DoneKept(e: Setup, s: State, r: State, depth: U8, h: Hop)
    requires Done(e, s, h) && Continues(s, r, depth)
    ensures Done(e, r, h)
  {
    var i: nat :| DoneAt(s, i, e.collectors[h.k].id, h.from);
    assert r.launches[i] == s.launches[i];
    assert DoneAt(r, i, e.collectors[h.k].id, h.from);
  }

  lemma ExploredKept(e: Setup, found: Finds, s: State, r: State, depth: U8, v: Indicator, t: seq<Hop>)
    requires Explored(e, found, s, v, t) && v in s.visited && Continues(s, r, depth)
    ensures Explored(e, found, r, v, t)
  {
    forall j | 0 <= j < |t| ensures Done(e, r, t[j]) { DoneKept(e, s, r, depth, t[j]); }
    forall i | 0 <= i < |r.launches| && r.launches[i].indicator == v ensures r.launches[i].depth == Saturated(|t|) {
      if i < |s.launches| { assert r.launches[i] == s.launches[i]; }
    }
  }

  lemma CollectedContinues(e: Setup, s: State, id: nat, c: Collection)
    requires Ledger(e, s) && id in s.pending
    ensures var r := Followed(e, s, id, c);
      Continues(s, r, Deeper(s.pending[id].depth)) && id !in r.pending
  {
    var h, depth := Handed(s, id, c), Deeper(s.pending[id].depth);
    FollowAllLabels(e, h, Examined(c.pivots), depth, id);
    FollowAllGrows(e, h, Examined(c.pivots), depth, id);
    FollowedNotPending(e, s, id, c);
    MergeTarget(s.store, c);
    FollowAllTarget(e, h, Examined(c.pivots), depth, id);
    forall i: nat | i < |s.launches| && i !in s.pending ensures i !in Followed(e, s, id, c).pending {
      NotRequeued(e, h, Examined(c.pivots), depth, id, i);
    }
  }

  /** Run `id` of collector `k` is about to end; trail `t` explains its indicator. */
  ghost predicate Ending(e: Setup, found: Finds, s: State, id: nat, k: nat, t: seq<Hop>)
  {
    && AllSettled(found, s) && s.overflow == 0 && s.store.target in s.visited
    && (forall i :: 0 <= i < |s.launches| ==> s.launches[i].indicator in s.visited)
    && id < |s.launches| && k < |e.collectors| && e.collectors[k].id == s.launches[id].source
    && RunsOn(e.collectors[k], s.launches[id].indicator, s.store.target)
    && Explored(e, found, s, s.launches[id].indicator, t)
  }

  /** The run finds `p`, which may be investigated and is not yet decided. */
  ghost predicate Uncovers(e: Setup, found: Finds, s: State, id: nat, p: Indicator)
    requires id < |s.launches|
  {
    && p in found(s.launches[id].source, s.launches[id].indicator) && e.investigable(p)
    && p !in s.visited && p !in s.dropped
  }

  lemma EndingExtends(e: Setup, found: Finds, s: State, id: nat, k: nat, t: seq<Hop>, p: Indicator)
    requires Ending(e, found, s, id, k, t) && Uncovers(e, found, s, id, p)
    ensures LeadsTo(e, found, s.store.target, t + [Hop(k, s.launches[id].indicator, p)], p)
    ensures Saturated(|t| + 1) <= e.limits.maxDepth ==> FoundNear(e, found, s.store.target, p)
    ensures Saturated(|t| + 1) > e.limits.maxDepth ==> FoundFar(e, found, s.store.target, p)
  {
    var h := Hop(k, s.launches[id].indicator, p);
    FindsExtend(e, found, s, s.launches[id].indicator, t, k, p);
    NearOrFar(e, t, h);
  }

  lemma NewlyExplored(e: Setup, found: Finds, s: State, r: State, id: nat, k: nat, t: seq<Hop>, p: Indicator)
    requires Ending(e, found, s, id, k, t) && Uncovers(e, found, s, id, p)
    requires Continues(s, r, Saturated(|t| + 1)) && id !in r.pending && Saturated(|t| + 1) <= e.limits.maxDepth
    ensures Explored(e, found, r, p, t + [Hop(k, s.launches[id].indicator, p)])
  {
    var h := Hop(k, s.launches[id].indicator, p);
    var longer := t + [h];
    EndingExtends(e, found, s, id, k, t, p);
    NearOrFar(e, t, h);
    forall j | 0 <= j < |longer| ensures Done(e, r, longer[j]) {
      if j < |t| {
        DoneKept(e, s, r, Saturated(|t| + 1), t[j]);
      } else {
        assert r.launches[id] == s.launches[id];
        assert DoneAt(r, id, e.collectors[k].id, h.from);
      }
    }
    assert forall i :: 0 <= i < |s.launches| ==> r.launches[i] == s.launches[i];
  }

  /** Within the limit all that may be followed is; beyond it nothing. */
  ghost predicate Sided(e: Setup, s: State, r: State, depth: U8)
  {
    if depth <= e.limits.maxDepth then Followable(e, s, r) else r.visited == s.visited
  }

  /** What following the findings of run `id` comes to, at one depth for all. */
  ghost predicate Pursued(e: Setup, found: Finds, s: State, r: State, id: nat, depth: U8)
    requires id < |s.launches|
  {
    && Continues(s, r, depth) && id !in r.pending && r.overflow == 0 && r.visited !! r.dropped
    && (forall v :: v in r.visited ==> e.investigable(v))
    && (forall v :: v in r.visited + r.dropped ==>
          v in s.visited + s.dropped || v in found(s.launches[id].source, s.launches[id].indicator))
    && Sided(e, s, r, depth)
  }

  lemma PursuedVisits(e: Setup, found: Finds, s: State, r: State, id: nat, depth: U8, v: Indicator)
    requires id < |s.launches| && Pursued(e, found, s, r, id, depth) && v in r.visited && v !in s.visited
    ensures Uncovers(e, found, s, id, v) && depth <= e.limits.maxDepth
  {
  }

  lemma PursuedRejects(e: Setup, found: Finds, s: State, r: State, id: nat, depth: U8, p: Indicator)
    requires id < |s.launches| && Pursued(e, found, s, r, id, depth) && p in r.dropped && p !in s.dropped
    ensures e.investigable(p) ==> Uncovers(e, found, s, id, p) && depth > e.limits.maxDepth
  {
  }

  lemma EndedExplored(e: Setup, found: Finds, s: State, r: State, id: nat, k: nat, t: seq<Hop>, v: Indicator)
    returns (u: seq<Hop>)
    requires Ending(e, found, s, id, k, t) && Pursued(e, found, s, r, id, Saturated(|t| + 1)) && Tracked(e, found, s)
    requires v in r.visited
    ensures Explored(e, found, r, v, u)
  {
    if v in s.visited {
      u :| Explored(e, found, s, v, u);
      ExploredKept(e, found, s, r, Saturated(|t| + 1), v, u);
    } else {
      PursuedVisits(e, found, s, r, id, Saturated(|t| + 1), v);
      u := t + [Hop(k, s.launches[id].indicator, v)];
      NewlyExplored(e, found, s, r, id, k, t, v);
    }
  }

  lemma EndedTracked(e: Setup, found: Finds, s: State, r: State, id: nat, k: nat, t: seq<Hop>)
    requires Ending(e, found, s, id, k, t) && Pursued(e, found, s, r, id, Saturated(|t| + 1)) && Tracked(e, found, s)
    ensures Tracked(e, found, r)
  {
    forall v | v in r.visited ensures exists u :: Explored(e, found, r, v, u) {
      var u := EndedExplored(e, found, s, r, id, k, t, v);
    }
  }

  lemma EndedReasoned(e: Setup, found: Finds, s: State, r: State, id: nat, k: nat, t: seq<Hop>)
    requires Ending(e, found, s, id, k, t) && Pursued(e, found, s, r, id, Saturated(|t| + 1)) && Reasoned(e, found, s)
    ensures Reasoned(e, found, r)
  {
    forall p | p in r.dropped && e.investigable(p) ensures FoundFar(e, found, r.store.target, p) {
      if p !in s.dropped {
        PursuedRejects(e, found, s, r, id, Saturated(|t| + 1), p);
        EndingExtends(e, found, s, id, k, t, p);
      }
    }
  }

  // ---------------------------------------------------------------- each join

  /** Every decision so far has its trail. */
  ghost predicate Explained(e: Setup, found: Finds, s: State)
  {
    Tracked(e, found, s) && Reasoned(e, found, s)
  }

  lemma StillExplained(e: Setup, found: Finds, s: State, r: State)
    requires Explained(e, found, s)
    requires r.launches == s.launches && r.pending.Keys <= s.pending.Keys && r.store.target == s.store.target
    requires r.visited == s.visited && r.dropped == s.dropped && r.overflow == s.overflow
    ensures Explained(e, found, r)
  {
    forall i: nat | i < |s.launches| && i !in s.pending ensures i !in r.pending { assert i !in s.pending.Keys; }
    assert Continues(s, r, 0);
    forall v | v in r.visited ensures exists t :: Explored(e, found, r, v, t) {
      var t :| Explored(e, found, s, v, t);
      ExploredKept(e, found, s, r, 0, v, t);
    }
  }

  lemma IsEnding(e: Setup, found: Finds, s: State, id: nat) returns (k: nat, t: seq<Hop>)
    requires Steady(e) && Resting(e, s) && id in s.pending && AllSettled(found, s) && Explained(e, found, s)
    ensures Ending(e, found, s, id, k, t)
  {
    k := LaunchRuns(e, s, id);
    t :| Explored(e, found, s, s.launches[id].indicator, t);
    forall i | 0 <= i < |s.launches| ensures s.launches[i].indicator in s.visited { assert LaunchOk(e, s, i); }
  }

  lemma UncoveredFits(e: Setup, found: Finds, s: State, id: nat, k: nat, t: seq<Hop>, room: set<Indicator>)
    requires Ending(e, found, s, id, k, t) && Places(e, found, s.store.target, room)
    requires Saturated(|t| + 1) <= e.limits.maxDepth
    ensures forall p :: Uncovers(e, found, s, id, p) ==> p in room
  {
    forall p | Uncovers(e, found, s, id, p) ensures p in room { EndingExtends(e, found, s, id, k, t, p); }
  }

  lemma VisitedFits(e: Setup, found: Finds, s: State, room: set<Indicator>)
    requires Tracked(e, found, s) && Places(e, found, s.store.target, room)
    ensures s.visited <= room
  {
    forall v | v in s.visited ensures v in room { TrackedNear(e, found, s, v); }
  }

  lemma AreExamined(e: Setup, found: Finds, s: State, id: nat, k: nat, t: seq<Hop>, room: set<Indicator>)
    requires Ending(e, found, s, id, k, t) && Places(e, found, s.store.target, room) && s.visited <= room
    ensures var pivots := found(s.launches[id].source, s.launches[id].indicator); Examined(pivots) == pivots
  {
    assert s.launches[id].indicator in room;
  }

  lemma EndingFits(e: Setup, found: Finds, s: State, id: nat, k: nat, t: seq<Hop>, room: set<Indicator>)
    requires Ending(e, found, s, id, k, t) && Tracked(e, found, s) && Places(e, found, s.store.target, room)
    ensures var pivots := found(s.launches[id].source, s.launches[id].indicator);
      && Examined(pivots) == pivots
      && (Saturated(|t| + 1) <= e.limits.maxDepth ==> Fits(e, s, pivots, room))
  {
    VisitedFits(e, found, s, room);
    AreExamined(e, found, s, id, k, t, room);
    if Saturated(|t| + 1) <= e.limits.maxDepth { UncoveredFits(e, found, s, id, k, t, room); }
  }

  lemma CollectedFrame(e: Setup, s: State, id: nat, c: Collection)
    requires Resting(e, s) && id in s.pending && WellFormedAll(c)
    ensures var r := Followed(e, s, id, c);
      && r.visited !! r.dropped && (forall v :: v in r.visited ==> e.investigable(v))
      && r.overflow == s.overflow + (|c.pivots| - |Examined(c.pivots)|)
      && forall v :: v in r.visited + r.dropped ==> v in s.visited + s.dropped || v in Examined(c.pivots)
  {
    FollowedLedger(e, s, id, c);
    FollowAllGrows(e, Handed(s, id, c), Examined(c.pivots), Deeper(s.pending[id].depth), id);
  }

  lemma CollectedSided(e: Setup, s: State, id: nat, c: Collection, room: set<Indicator>)
    requires id in s.pending && Examined(c.pivots) == c.pivots
    requires Deeper(s.pending[id].depth) <= e.limits.maxDepth ==> Fits(e, s, c.pivots, room)
    ensures Sided(e, s, Followed(e, s, id, c), Deeper(s.pending[id].depth))
  {
    var h, depth := Handed(s, id, c), Deeper(s.pending[id].depth);
    if depth <= e.limits.maxDepth {
      FollowAllFits(e, h, c.pivots, depth, id, room);
    } else {
      FollowAllTooDeep(e, h, c.pivots, depth, id);
    }
  }

  lemma EndingDepth(e: Setup, found: Finds, s: State, id: nat, k: nat, t: seq<Hop>)
    requires Ledger(e, s) && id in s.pending && Ending(e, found, s, id, k, t)
    ensures Deeper(s.pending[id].depth) == Saturated(|t| + 1)
  {
    Saturates(|t|);
  }

  lemma FittingPursued(e: Setup, found: Finds, s: State, id: nat, c: Collection, depth: U8, room: set<Indicator>)
    requires Resting(e, s) && id in s.pending && WellFormedAll(c) && s.overflow == 0
    requires c.pivots == found(s.launches[id].source, s.launches[id].indicator)
    requires depth == Deeper(s.pending[id].depth) && Examined(c.pivots) == c.pivots
    requires depth <= e.limits.maxDepth ==> Fits(e, s, c.pivots, room)
    ensures Pursued(e, found, s, Followed(e, s, id, c), id, depth)
  {
    var r := Followed(e, s, id, c);
    assert Continues(s, r, depth) && id !in r.pending by { CollectedContinues(e, s, id, c); }
    assert Sided(e, s, r, depth) by { CollectedSided(e, s, id, c, room); }
    CollectedFrame(e, s, id, c);
  }

  lemma CollectedPursued(e: Setup, found: Finds, s: State, id: nat, c: Collection, k: nat, t: seq<Hop>, room: set<Indicator>)
    requires Resting(e, s) && id in s.pending && WellFormedAll(c) && Tracked(e, found, s)
    requires c.pivots == found(s.launches[id].source, s.launches[id].indicator)
    requires Ending(e, found, s, id, k, t) && Places(e, found, s.store.target, room)
    ensures Pursued(e, found, s, Followed(e, s, id, c), id, Saturated(|t| + 1))
  {
    EndingDepth(e, found, s, id, k, t);
    EndingFits(e, found, s, id, k, t, room);
    FittingPursued(e, found, s, id, c, Saturated(|t| + 1), room);
  }

  lemma CollectedExplained(e: Setup, found: Finds, s: State, id: nat, c: Collection, room: set<Indicator>)
    requires Steady(e) && Resting(e, s) && id in s.pending && WellFormedAll(c)
    requires c.pivots == found(s.pending[id].source, s.pending[id].indicator)
    requires AllSettled(found, s) && Explained(e, found, s) && Places(e, found, s.store.target, room)
    ensures Explained(e, found, Followed(e, s, id, c))
  {
    var k, t := IsEnding(e, found, s, id);
    CollectedPursued(e, found, s, id, c, k, t, room);
    EndedTracked(e, found, s, Followed(e, s, id, c), id, k, t);
    EndedReasoned(e, found, s, Followed(e, s, id, c), id, k, t);
  }

  lemma StepExplained(e: Setup, found: Finds, s: State, event: Event, room: set<Indicator>)
    requires Steady(e) && Resting(e, s) && Enabled(s, event) && Answers(found, s, event)
    requires AllSettled(found, s) && Explained(e, found, s) && Places(e, found, s.store.target, room)
    ensures Explained(e, found, Step(e, s, event))
  {
    match event
    case Completed(id, end, from, to) =>
      CompleteParts(e, s, id, end, from, to);
      if end.Collected? {
        CollectedExplained(e, found, s, id, end.collection, room);
        StillExplained(e, found, Followed(e, s, id, end.collection), Step(e, s, event));
      } else {
        StillExplained(e, found, s, Step(e, s, event));
      }
    case Crashed(id) => StillExplained(e, found, s, Step(e, s, event));
  }

  lemma {:induction false} PlayExplained(e: Setup, found: Finds, s: State, events: seq<Event>, room: set<Indicator>)
    requires Steady(e) && Resting(e, s) && Possible(e, s, events) && AllAnswer(e, found, s, events)
    requires AllSettled(found, s) && Explained(e, found, s) && Places(e, found, s.store.target, room)
    ensures Explained(e, found, Play(e, s, events))
    decreases |events|
  {
    if events != [] {
      StepProgress(e, s, events[0]);
      StepSettles(e, found, s, events[0]);
      StepExplained(e, found, s, events[0], room);
      StepTarget(e, s, events[0]);
      PlayExplained(e, found, Step(e, s, events[0]), events[1..], room);
    }
  }

  lemma BeginExplained(e: Setup, store: Store, found: Finds)
    requires Steady(e) && Ready(e, store)
    ensures Explained(e, found, Begin(e, store))
  {
    var s := Begin(e, store);
    BeginStarts(e, store, found);
    forall i | 0 <= i < |s.launches| && s.launches[i].indicator == store.target ensures s.launches[i].depth == 0 {
      assert LaunchOk(e, s, i);
    }
    assert Explored(e, found, s, store.target, []);
  }

  /** With places for everything each visited indicator has a trail of finished
      runs, as long as its depth label says, and each rejection has its reason, in
      any order of joins. */
  lemma ReachedExplained(e: Setup, store: Store, found: Finds, events: seq<Event>, room: set<Indicator>)
    requires RunSoFar(e, store, found, events) && Places(e, found, store.target, room)
    ensures Explained(e, found, Reached(e, store, events))
  {
    BeginStarts(e, store, found);
    BeginExplained(e, store, found);
    PlayExplained(e, found, Begin(e, store), events, room);
  }
}
