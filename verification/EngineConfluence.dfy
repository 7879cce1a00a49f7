/** When the order of completions matters. If the limits leave a place for all that
    is found within the depth limit, it does not matter exactly when nothing is
    found both within that limit and beyond it. Then every order of joins visits
    what a trail within the limit leads to, starts the same runs and rejects the
    same candidates. */
module EngineConfluence {
  import opened Model
  import opened Investigation
  import opened EngineSpec
  import opened EngineInvariants
  import opened EngineSteps
  import opened EngineTheorems
  import opened EngineFindings
  import opened EngineTrails

  // ------------------------------------------------------ what every order shares

  /** With a place for everything nothing is rejected but what may not be
      investigated or is found beyond the depth limit, in any order of joins and
      whether or not the order decides. */
  lemma RejectedForCause(e: Setup, store: Store, found: Finds, events: seq<Event>, room: set<Indicator>, p: Indicator)
    requires RunSoFar(e, store, found, events) && Places(e, found, store.target, room)
    ensures Reached(e, store, events).overflow == 0
    ensures p in Reached(e, store, events).dropped ==> !e.investigable(p) || FoundFar(e, found, store.target, p)
  {
    ReachedExplained(e, store, found, events, room);
    TargetKept(e, store, events);
  }

  /** What a finished run of collector `k` on `v` found was decided on. */
  lemma FindingDecided(e: Setup, found: Finds, s: State, k: nat, v: Indicator, p: Indicator)
    requires AllStarted(e, s) && AllSettled(found, s) && s.overflow == 0 && s.pending == map[]
    requires k < |e.collectors| && v in s.visited && Reachable(e, found, s.store.target, k, v, p)
    ensures p in s.visited || p in s.dropped
  {
    assert Launched(s, e.collectors[k].id, v);
    var i :| 0 <= i < |s.launches| && s.launches[i].source == e.collectors[k].id && s.launches[i].indicator == v;
    assert Settles(found, s, i);
  }

  lemma {:induction false} TrailVisited(e: Setup, found: Finds, s: State, t: seq<Hop>)
    requires AllStarted(e, s) && AllSettled(found, s) && s.pending == map[] && s.store.target in s.visited
    requires Explained(e, found, s) && OneSided(e, found, s.store.target)
    requires Trail(e, found, s.store.target, t) && Near(e, t)
    ensures EndOf(s.store.target, t) in s.visited
    decreases |t|
  {
    if t != [] {
      var h := t[|t| - 1];
      TrailVisited(e, found, s, t[..|t| - 1]);
      FindingDecided(e, found, s, h.k, h.from, h.to);
      assert LeadsTo(e, found, s.store.target, t, h.to);
      assert FoundNear(e, found, s.store.target, h.to);
    }
  }

  /** With a place for everything, and nothing found both within the depth limit and
      beyond it, visited is what a trail within the limit leads to. */
  lemma VisitedExactly(e: Setup, store: Store, found: Finds, events: seq<Event>, room: set<Indicator>, p: Indicator)
    requires WholeRun(e, store, found, events) && Places(e, found, store.target, room) && OneSided(e, found, store.target)
    ensures p in Reached(e, store, events).visited <==> FoundNear(e, found, store.target, p)
  {
    var s := Reached(e, store, events);
    ReachedSettles(e, store, found, events);
    ReachedExplained(e, store, found, events, room);
    if p in s.visited { TrackedNear(e, found, s, p); }
    if FoundNear(e, found, store.target, p) {
      var t :| LeadsTo(e, found, store.target, t, p) && Near(e, t);
      TrailVisited(e, found, s, t);
    }
  }

  /** Rejected is what was found and may not be investigated, or was found beyond the
      depth limit. */
  lemma RejectedExactly(e: Setup, store: Store, found: Finds, events: seq<Event>, room: set<Indicator>, p: Indicator)
    requires WholeRun(e, store, found, events) && Places(e, found, store.target, room) && OneSided(e, found, store.target)
    ensures p in Reached(e, store, events).dropped <==>
              && (!e.investigable(p) || FoundFar(e, found, store.target, p))
              && exists i :: FoundBy(found, Reached(e, store, events), i, p)
  {
    var s := Reached(e, store, events);
    ReachedSettles(e, store, found, events);
    RejectedForCause(e, store, found, events, room, p);
    VisitedExactly(e, store, found, events, room, p);
    PivotsWithinLimits(e, store, events);
    if i: nat :| FoundBy(found, s, i, p) {
      assert Settles(found, s, i);
    }
  }

  // ----------------------------------------------------------------- closed sets

  /** Visited indicators are in every closed set. */
  lemma WithinAnyClosed(e: Setup, store: Store, found: Finds, events: seq<Event>, room: set<Indicator>, c: set<Indicator>)
    requires RunSoFar(e, store, found, events) && Places(e, found, store.target, room) && Closed(e, found, store.target, c)
    ensures Reached(e, store, events).visited <= c
  {
    var s := Reached(e, store, events);
    ReachedExplained(e, store, found, events, room);
    TargetKept(e, store, events);
    forall v | v in s.visited ensures v in c {
      var t :| Explored(e, found, s, v, t);
      TrailWithin(e, found, store.target, t, c);
    }
  }

  /** If the depth limit is never reached the visited indicators are the least closed
      set; it never is if some closed set is small enough, see `ClosedIsNear`. */
  lemma VisitedIsLeastClosed(e: Setup, store: Store, found: Finds, events: seq<Event>, room: set<Indicator>, c: set<Indicator>)
    requires WholeRun(e, store, found, events) && Places(e, found, store.target, room)
    requires forall p :: !FoundFar(e, found, store.target, p)
    ensures Closed(e, found, store.target, Reached(e, store, events).visited)
    ensures Closed(e, found, store.target, c) ==> Reached(e, store, events).visited <= c
  {
    var s := Reached(e, store, events);
    ReachedSettles(e, store, found, events);
    ReachedExplained(e, store, found, events, room);
    forall k, v, p | 0 <= k < |e.collectors| && v in s.visited && Reachable(e, found, store.target, k, v, p)
      ensures p in s.visited
    {
      FindingDecided(e, found, s, k, v, p);
    }
    if Closed(e, found, store.target, c) { WithinAnyClosed(e, store, found, events, room, c); }
  }

  // ------------------------------------------------------------------- confluence

  lemma SameVisited(e: Setup, store: Store, found: Finds, room: set<Indicator>, one: seq<Event>, other: seq<Event>)
    requires Places(e, found, store.target, room) && OneSided(e, found, store.target)
    requires WholeRun(e, store, found, one) && WholeRun(e, store, found, other)
    ensures Reached(e, store, one).visited == Reached(e, store, other).visited
  {
    forall p ensures p in Reached(e, store, one).visited <==> p in Reached(e, store, other).visited {
      VisitedExactly(e, store, found, one, room, p);
      VisitedExactly(e, store, found, other, room, p);
    }
  }

  /** With a place for everything, and nothing found both within the depth limit and
      beyond it, the order of completions does not matter: two runs whose collectors
      find the same things visit the same indicators, start the same collectors on
      them and reject the same candidates. */
  lemma Confluence(e: Setup, store: Store, found: Finds, room: set<Indicator>, one: seq<Event>, other: seq<Event>)
    requires Places(e, found, store.target, room) && OneSided(e, found, store.target)
    requires WholeRun(e, store, found, one) && WholeRun(e, store, found, other)
    ensures var s, t := Reached(e, store, one), Reached(e, store, other);
      && s.visited == t.visited && s.dropped == t.dropped
      && (forall src, v :: Launched(s, src, v) <==> Launched(t, src, v))
      && |s.launches| == |t.launches|
  {
    SameVisited(e, store, found, room, one, other);
    SameRuns(e, store, found, one, other);
    SameRuns(e, store, found, other, one);
    SameCount(e, store, one, other);
    SameDropped(e, store, found, room, one, other);
    SameDropped(e, store, found, room, other, one);
  }

  lemma SameDropped(e: Setup, store: Store, found: Finds, room: set<Indicator>, one: seq<Event>, other: seq<Event>)
    requires Places(e, found, store.target, room) && OneSided(e, found, store.target)
    requires WholeRun(e, store, found, one) && WholeRun(e, store, found, other)
    requires forall src, v :: Launched(Reached(e, store, one), src, v) ==> Launched(Reached(e, store, other), src, v)
    ensures Reached(e, store, one).dropped <= Reached(e, store, other).dropped
  {
    forall p | p in Reached(e, store, one).dropped ensures p in Reached(e, store, other).dropped {
      RejectedExactly(e, store, found, one, room, p);
      SameFinder(found, Reached(e, store, one), Reached(e, store, other), p);
      RejectedExactly(e, store, found, other, room, p);
    }
  }

  lemma SameFinder(found: Finds, s: State, t: State, p: Indicator)
    requires forall src, v :: Launched(s, src, v) ==> Launched(t, src, v)
    requires exists i :: FoundBy(found, s, i, p)
    ensures exists i :: FoundBy(found, t, i, p)
  {
    var i: nat :| FoundBy(found, s, i, p);
    assert Launched(s, s.launches[i].source, s.launches[i].indicator);
    var j :| 0 <= j < |t.launches| && t.launches[j].source == s.launches[i].source &&
             t.launches[j].indicator == s.launches[i].indicator;
    assert FoundBy(found, t, j, p);
  }

  lemma SameCount(e: Setup, store: Store, one: seq<Event>, other: seq<Event>)
    requires Run(e, store, one) && Run(e, store, other)
    requires forall src, v :: Launched(Reached(e, store, one), src, v) <==> Launched(Reached(e, store, other), src, v)
    ensures |Reached(e, store, one).launches| == |Reached(e, store, other).launches|
  {
    var s, t := Reached(e, store, one), Reached(e, store, other);
    NoRunTwice(e, store, one);
    NoRunTwice(e, store, other);
    PairCount(s.launches);
    PairCount(t.launches);
    PairsOfRuns(s);
    PairsOfRuns(t);
    assert Pairs(s.launches) == Pairs(t.launches);
  }

  lemma SameRuns(e: Setup, store: Store, found: Finds, one: seq<Event>, other: seq<Event>)
    requires WholeRun(e, store, found, one) && WholeRun(e, store, found, other)
    requires Reached(e, store, one).visited == Reached(e, store, other).visited
    ensures forall src, v :: Launched(Reached(e, store, one), src, v) ==> Launched(Reached(e, store, other), src, v)
  {
    var s, t := Reached(e, store, one), Reached(e, store, other);
    ReachedSettles(e, store, found, one);
    ReachedSettles(e, store, found, other);
    forall src, v | Launched(s, src, v) ensures Launched(t, src, v) {
      var i :| 0 <= i < |s.launches| && s.launches[i].source == src && s.launches[i].indicator == v;
      var k := LaunchRuns(e, s, i);
    }
  }

  ghost function Pairs(launches: seq<Launch>): (r: set<(SourceId, Indicator)>)
  {
    set i | 0 <= i < |launches| :: (launches[i].source, launches[i].indicator)
  }

  lemma PairsOfRuns(s: State)
    ensures forall src, v :: (src, v) in Pairs(s.launches) <==> Launched(s, src, v)
  {
  }

  lemma {:induction false} PairCount(launches: seq<Launch>)
    requires forall i, j :: 0 <= i < j < |launches| ==>
               launches[i].source != launches[j].source || launches[i].indicator != launches[j].indicator
    ensures |Pairs(launches)| == |launches|
  {
    if launches != [] {
      var n := |launches| - 1;
      var init, last := launches[..n], (launches[n].source, launches[n].indicator);
      PairCount(init);
      assert Pairs(launches) == Pairs(init) + {last};
      assert last !in Pairs(init);
    } else {
      assert Pairs(launches) == {};
    }
  }
}
