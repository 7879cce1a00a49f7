/** Runs whose collectors find fixed things: every collector that runs on a visited
    indicator is started on it, every finding of a finished run is followed or
    rejected, and nothing is rejected that was not found. */
module EngineFindings {
  import opened Model
  import opened Investigation
  import opened EngineSpec
  import opened EngineInvariants
  import opened EngineSteps
  import opened EngineTheorems

  /** The pivots each collector finds on each indicator. */
  type Finds = (SourceId, Indicator) -> seq<Indicator>

  /** Collectors whose availability does not change during the run. */
  ghost predicate Steady(e: Setup)
  {
    forall k, t, u :: 0 <= k < |e.collectors| ==> e.collectors[k].ready(t) == e.collectors[k].ready(u)
  }

  /** The collector is run on this indicator once it is visited. */
  predicate RunsOn(c: Collector, v: Indicator, target: Indicator)
  {
    c.supports(v) && (v == target || c.onPivots) && c.ready(0)
  }

  function PivotsOf(end: TaskEnd): (r: seq<Indicator>)
  {
    if end.Collected? then end.collection.pivots else []
  }

  /** The event ends a run with what its collector finds on its indicator; a run
      that fails finds nothing. The deadline is not among these events. */
  ghost predicate Answers(found: Finds, s: State, event: Event)
  {
    match event
    case Completed(id, end, _, _) => id in s.pending && PivotsOf(end) == found(s.pending[id].source, s.pending[id].indicator)
    case Crashed(id) => id in s.pending && found(s.pending[id].source, s.pending[id].indicator) == []
    case Deadline(_) => false
  }

  ghost predicate AllAnswer(e: Setup, found: Finds, s: State, events: seq<Event>)
    decreases |events|
  {
    events == [] || (Answers(found, s, events[0]) && AllAnswer(e, found, Step(e, s, events[0]), events[1..]))
  }

  // ------------------------------------------------------- every run is started

  /** Each collector that runs on a visited indicator was started on it, except for
      `ind` at the collectors from `k` on. */
  ghost predicate Started(e: Setup, s: State, ind: Indicator, k: nat)
  {
    forall j, v :: 0 <= j < |e.collectors| && v in s.visited && RunsOn(e.collectors[j], v, s.store.target) ==>
      Launched(s, e.collectors[j].id, v) || (v == ind && j >= k)
  }

  ghost predicate AllStarted(e: Setup, s: State)
  {
    Started(e, s, s.store.target, |e.collectors|)
  }

  lemma LaunchedKept(s: State, r: State, src: SourceId, ind: Indicator)
    requires Launched(s, src, ind) && s.launches <= r.launches
    ensures Launched(r, src, ind)
  {
    var i :| 0 <= i < |s.launches| && s.launches[i].source == src && s.launches[i].indicator == ind;
    assert r.launches[i] == s.launches[i];
  }

  lemma OfferStarts(e: Setup, s: State, ind: Indicator, depth: U8, origin: Origin, k: nat)
    requires k < |e.collectors| && Steady(e) && (depth == 0 <==> ind == s.store.target)
    requires RunsOn(e.collectors[k], ind, s.store.target)
    ensures Launched(Offer(e, s, e.collectors[k], ind, depth, origin), e.collectors[k].id, ind)
  {
    var c, r := e.collectors[k], Offer(e, s, e.collectors[k], ind, depth, origin);
    assert c.ready(s.ticks) == c.ready(0);
    assert r.launches[|s.launches|].source == c.id && r.launches[|s.launches|].indicator == ind;
  }

  lemma {:induction false} ScheduleStarts(e: Setup, s: State, ind: Indicator, depth: U8, origin: Origin, k: nat)
    requires k <= |e.collectors| && Steady(e) && (depth == 0 <==> ind == s.store.target)
    requires Started(e, s, ind, k)
    ensures Started(e, Schedule(e, s, ind, depth, origin, k), ind, |e.collectors|)
    decreases |e.collectors| - k
  {
    if k < |e.collectors| {
      var r := Offer(e, s, e.collectors[k], ind, depth, origin);
      OfferPending(e, s, ind, depth, origin, k);
      forall j, v | 0 <= j < |e.collectors| && v in r.visited && RunsOn(e.collectors[j], v, r.store.target)
        ensures Launched(r, e.collectors[j].id, v) || (v == ind && j >= k + 1)
      {
        if Launched(s, e.collectors[j].id, v) {
          LaunchedKept(s, r, e.collectors[j].id, v);
        } else if j == k {
          OfferStarts(e, s, ind, depth, origin, k);
        }
      }
      ScheduleStarts(e, r, ind, depth, origin, k + 1);
    }
  }

  lemma FollowStarts(e: Setup, s: State, pivot: Indicator, depth: U8, i: nat)
    requires Steady(e) && depth > 0 && s.store.target in s.visited && AllStarted(e, s)
    ensures var r := Follow(e, s, pivot, depth, FromRun(i));
      AllStarted(e, r) && s.store.target == r.store.target && s.visited <= r.visited
  {
    if Enters(e, s, pivot, depth) {
      var r := Entered(s, pivot);
      forall j, v | 0 <= j < |e.collectors| && v in r.visited && RunsOn(e.collectors[j], v, r.store.target)
        ensures Launched(r, e.collectors[j].id, v) || (v == pivot && j >= 0)
      {
        if v in s.visited { LaunchedKept(s, r, e.collectors[j].id, v); }
      }
      ScheduleStarts(e, r, pivot, depth, FromRun(i), 0);
      ScheduleFrame(e, r, pivot, depth, FromRun(i), 0);
    } else {
      SameLaunches(e, s, Follow(e, s, pivot, depth, FromRun(i)));
    }
  }

  lemma SameLaunches(e: Setup, s: State, r: State)
    requires r.launches == s.launches && r.visited == s.visited && r.store.target == s.store.target
    requires AllStarted(e, s)
    ensures AllStarted(e, r)
  {
    forall j, v | 0 <= j < |e.collectors| && v in r.visited && RunsOn(e.collectors[j], v, r.store.target)
      ensures Launched(r, e.collectors[j].id, v)
    {
      LaunchedKept(s, r, e.collectors[j].id, v);
    }
  }

  lemma {:induction false} FollowAllStarts(e: Setup, s: State, pivots: seq<Indicator>, depth: U8, i: nat)
    requires Steady(e) && depth > 0 && s.store.target in s.visited && AllStarted(e, s)
    ensures AllStarted(e, FollowAll(e, s, pivots, depth, FromRun(i)))
    decreases |pivots|
  {
    if pivots != [] {
      FollowStarts(e, s, pivots[0], depth, i);
      FollowAllStarts(e, Follow(e, s, pivots[0], depth, FromRun(i)), pivots[1..], depth, i);
    }
  }

  lemma StepStarts(e: Setup, s: State, event: Event)
    requires Steady(e) && s.store.target in s.visited && AllStarted(e, s) && !event.Deadline?
    ensures AllStarted(e, Step(e, s, event))
  {
    match event
    case Completed(id, end, from, to) =>
      if id in s.pending {
        CompleteParts(e, s, id, end, from, to);
        if end.Collected? {
          var c, depth := end.collection, Deeper(s.pending[id].depth);
          var h := Handed(s, id, c);
          MergeTarget(s.store, c);
          SameLaunches(e, s, h);
          FollowAllStarts(e, h, Examined(c.pivots), depth, id);
          SameLaunches(e, Followed(e, s, id, c), Step(e, s, event));
        } else {
          SameLaunches(e, s, Step(e, s, event));
        }
      }
    case Crashed(id) => SameLaunches(e, s, Step(e, s, event));
  }

  // --------------------------------------------- every finding is accounted for

  /** `r` extends `s` by runs that are still pending. */
  ghost predicate Grown(s: State, r: State)
  {
    && s.launches <= r.launches && s.pending.Keys <= r.pending.Keys
    && (forall j :: |s.launches| <= j < |r.launches| ==> j in r.pending.Keys)
    && s.visited <= r.visited && s.dropped <= r.dropped && r.overflow == s.overflow
  }

  lemma {:induction false} ScheduleGrows(e: Setup, s: State, ind: Indicator, depth: U8, origin: Origin, k: nat)
    requires k <= |e.collectors|
    ensures Grown(s, Schedule(e, s, ind, depth, origin, k))
    decreases |e.collectors| - k
  {
    if k < |e.collectors| {
      OfferPending(e, s, ind, depth, origin, k);
      OfferCases(e, s, ind, depth, origin, k);
      ScheduleGrows(e, Offer(e, s, e.collectors[k], ind, depth, origin), ind, depth, origin, k + 1);
    }
  }

  lemma FollowGrows(e: Setup, s: State, pivot: Indicator, depth: U8, i: nat)
    ensures var r := Follow(e, s, pivot, depth, FromRun(i));
      && Grown(s, r) && (pivot in r.visited || pivot in r.dropped)
      && r.visited <= s.visited + {pivot} && r.dropped <= s.dropped + {pivot}
  {
    if Enters(e, s, pivot, depth) {
      ScheduleGrows(e, Entered(s, pivot), pivot, depth, FromRun(i), 0);
      ScheduleFrame(e, Entered(s, pivot), pivot, depth, FromRun(i), 0);
    }
  }

  lemma {:induction false} FollowAllGrows(e: Setup, s: State, pivots: seq<Indicator>, depth: U8, i: nat)
    ensures var r := FollowAll(e, s, pivots, depth, FromRun(i));
      && Grown(s, r)
      && (forall p :: p in pivots ==> p in r.visited || p in r.dropped)
      && (forall v :: v in r.visited ==> v in s.visited || v in pivots)
      && (forall p :: p in r.dropped ==> p in s.dropped || p in pivots)
    decreases |pivots|
  {
    if pivots != [] {
      FollowGrows(e, s, pivots[0], depth, i);
      FollowAllGrows(e, Follow(e, s, pivots[0], depth, FromRun(i)), pivots[1..], depth, i);
      assert pivots == [pivots[0]] + pivots[1..];
    }
  }

  /** Everything found by this run was followed or rejected. */
  ghost predicate Settles(found: Finds, s: State, i: nat)
    requires i < |s.launches|
  {
    forall p :: p in found(s.launches[i].source, s.launches[i].indicator) ==> p in s.visited || p in s.dropped
  }

  /** Unless candidates overflowed, all findings of finished runs were decided. */
  ghost predicate AllSettled(found: Finds, s: State)
  {
    s.overflow == 0 ==> forall i :: 0 <= i < |s.launches| && i !in s.pending ==> Settles(found, s, i)
  }

  lemma SettlesKept(found: Finds, s: State, r: State, i: nat)
    requires i < |s.launches| && s.launches <= r.launches && s.visited <= r.visited && s.dropped <= r.dropped
    requires Settles(found, s, i)
    ensures Settles(found, r, i)
  {
    assert r.launches[i] == s.launches[i];
  }

  lemma CollectedSettles(e: Setup, found: Finds, s: State, id: nat, c: Collection)
    requires Ledger(e, s) && id in s.pending && AllSettled(found, s)
    requires c.pivots == found(s.pending[id].source, s.pending[id].indicator)
    ensures AllSettled(found, Followed(e, s, id, c))
  {
    var h, r := Handed(s, id, c), Followed(e, s, id, c);
    FollowAllGrows(e, h, Examined(c.pivots), Deeper(s.pending[id].depth), id);
    if r.overflow == 0 {
      assert s.overflow == 0 && Examined(c.pivots) == c.pivots;
      forall i | 0 <= i < |r.launches| && i !in r.pending ensures Settles(found, r, i) {
        assert i !in r.pending.Keys;
        if i == id {
          assert r.launches[i] == s.launches[i];
        } else {
          assert i !in h.pending.Keys && i !in s.pending;
          SettlesKept(found, s, r, i);
        }
      }
    }
  }

  lemma RetiredSettles(e: Setup, found: Finds, s: State, id: nat, r: State)
    requires Ledger(e, s) && id in s.pending && AllSettled(found, s)
    requires found(s.pending[id].source, s.pending[id].indicator) == []
    requires r.launches == s.launches && r.pending == s.pending - {id}
    requires r.visited == s.visited && r.dropped == s.dropped && r.overflow == s.overflow
    ensures AllSettled(found, r)
  {
    if r.overflow == 0 {
      forall i | 0 <= i < |r.launches| && i !in r.pending ensures Settles(found, r, i) {
        if i != id { SettlesKept(found, s, r, i); }
      }
    }
  }

  lemma StepSettles(e: Setup, found: Finds, s: State, event: Event)
    requires Ledger(e, s) && AllSettled(found, s) && Answers(found, s, event)
    ensures AllSettled(found, Step(e, s, event))
  {
    match event
    case Completed(id, end, from, to) =>
      CompleteParts(e, s, id, end, from, to);
      if end.Collected? {
        CollectedSettles(e, found, s, id, end.collection);
        var f, r := Followed(e, s, id, end.collection), Step(e, s, event);
        if r.overflow == 0 {
          forall i | 0 <= i < |r.launches| && i !in r.pending ensures Settles(found, r, i) { SettlesKept(found, f, r, i); }
        }
      } else {
        RetiredSettles(e, found, s, id, Step(e, s, event));
      }
    case Crashed(id) => RetiredSettles(e, found, s, id, Step(e, s, event));
  }

  lemma SubsetSize<T>(a: set<T>, b: set<T>)
    requires a <= b
    ensures |a| <= |b|
  {
    assert b == a + (b - a);
  }

  // ------------------------------------------------------------ rejected findings

  /** Every rejected candidate was found by some run. */
  ghost predicate DroppedFound(found: Finds, s: State)
  {
    forall p :: p in s.dropped ==> exists i :: FoundBy(found, s, i, p)
  }

  ghost predicate FoundBy(found: Finds, s: State, i: nat, p: Indicator)
  {
    i < |s.launches| && p in found(s.launches[i].source, s.launches[i].indicator)
  }

  lemma FoundByKept(found: Finds, s: State, r: State)
    requires DroppedFound(found, s) && s.launches <= r.launches && r.dropped <= s.dropped
    ensures DroppedFound(found, r)
  {
    forall p | p in r.dropped ensures exists i :: FoundBy(found, r, i, p) {
      var i: nat :| FoundBy(found, s, i, p);
      assert r.launches[i] == s.launches[i];
      assert FoundBy(found, r, i, p);
    }
  }

  lemma FollowedFound(e: Setup, found: Finds, s: State, id: nat, c: Collection)
    requires Ledger(e, s) && id in s.pending && DroppedFound(found, s)
    requires c.pivots == found(s.pending[id].source, s.pending[id].indicator)
    ensures DroppedFound(found, Followed(e, s, id, c))
  {
    var h, r := Handed(s, id, c), Followed(e, s, id, c);
    FollowAllGrows(e, h, Examined(c.pivots), Deeper(s.pending[id].depth), id);
    forall p | p in r.dropped ensures exists i :: FoundBy(found, r, i, p) {
      if p in s.dropped {
        var i: nat :| FoundBy(found, s, i, p);
        assert r.launches[i] == s.launches[i];
        assert FoundBy(found, r, i, p);
      } else {
        assert p in c.pivots && r.launches[id] == s.launches[id];
        assert FoundBy(found, r, id, p);
      }
    }
  }

  lemma StepFound(e: Setup, found: Finds, s: State, event: Event)
    requires Ledger(e, s) && DroppedFound(found, s) && Answers(found, s, event)
    ensures DroppedFound(found, Step(e, s, event))
  {
    match event
    case Completed(id, end, from, to) =>
      CompleteParts(e, s, id, end, from, to);
      if end.Collected? {
        FollowedFound(e, found, s, id, end.collection);
        FoundByKept(found, Followed(e, s, id, end.collection), Step(e, s, event));
      } else {
        FoundByKept(found, s, Step(e, s, event));
      }
    case Crashed(id) => FoundByKept(found, s, Step(e, s, event));
  }

  // ------------------------------------------------------------------ whole runs

  /** A started run has a collector that runs on its indicator. */
  lemma LaunchRuns(e: Setup, s: State, i: nat) returns (k: nat)
    requires Steady(e) && Ledger(e, s) && i < |s.launches|
    ensures k < |e.collectors| && e.collectors[k].id == s.launches[i].source
    ensures RunsOn(e.collectors[k], s.launches[i].indicator, s.store.target) && s.launches[i].indicator in s.visited
  {
    assert LaunchOk(e, s, i);
    k :| Explains(e, k, s.launches[i]);
    var t :| e.collectors[k].ready(t);
    assert e.collectors[k].ready(t) == e.collectors[k].ready(0);
  }

  lemma {:induction false} PlaySettles(e: Setup, found: Finds, s: State, events: seq<Event>)
    requires Steady(e) && Resting(e, s) && Possible(e, s, events) && AllAnswer(e, found, s, events)
    requires AllStarted(e, s) && AllSettled(found, s) && DroppedFound(found, s)
    ensures var r := Play(e, s, events); AllStarted(e, r) && AllSettled(found, r) && DroppedFound(found, r)
    decreases |events|
  {
    if events != [] {
      StepProgress(e, s, events[0]);
      StepStarts(e, s, events[0]);
      StepSettles(e, found, s, events[0]);
      StepFound(e, found, s, events[0]);
      PlaySettles(e, found, Step(e, s, events[0]), events[1..]);
    }
  }

  /** A run so far, without the deadline, in which the collectors find `found`. */
  ghost predicate RunSoFar(e: Setup, store: Store, found: Finds, events: seq<Event>)
  {
    Steady(e) && Run(e, store, events) && AllAnswer(e, found, Begin(e, store), events)
  }

  /** Such a run to the end. */
  ghost predicate WholeRun(e: Setup, store: Store, found: Finds, events: seq<Event>)
  {
    RunSoFar(e, store, found, events) && Reached(e, store, events).pending == map[]
  }

  lemma BeginStarts(e: Setup, store: Store, found: Finds)
    requires Steady(e) && Ready(e, store)
    ensures var s := Begin(e, store);
      && Resting(e, s) && AllStarted(e, s) && AllSettled(found, s) && DroppedFound(found, s)
      && s.visited == {store.target} && s.dropped == {} && s.overflow == 0 && s.store.target == store.target
  {
    BeginRuns(e, store);
    BeginSources(e, store);
    var b := Blank(store);
    ScheduleStarts(e, b, store.target, 0, FromTarget, 0);
    ScheduleGrows(e, b, store.target, 0, FromTarget, 0);
    ScheduleFrame(e, b, store.target, 0, FromTarget, 0);
  }

  lemma ReachedSettles(e: Setup, store: Store, found: Finds, events: seq<Event>)
    requires RunSoFar(e, store, found, events)
    ensures var s := Reached(e, store, events);
      Resting(e, s) && AllStarted(e, s) && AllSettled(found, s) && DroppedFound(found, s) && s.store.target == store.target
  {
    BeginStarts(e, store, found);
    PlaySettles(e, found, Begin(e, store), events);
    TargetKept(e, store, events);
    ReachedRests(e, store, events);
  }
}
