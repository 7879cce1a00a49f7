/** Whole runs of the engine: any sequence of join events from the start, until
    no task is left, and what the finished investigation then says. */
module EngineTheorems {
  import opened Results
  import opened Model
  import opened Investigation
  import opened EngineSpec
  import opened EngineInvariants
  import opened EngineSteps

  /** What `Engine::investigate` hands to a run: a fresh investigation of a target
      that may be investigated, and collectors registered one by one. */
  ghost predicate Ready(e: Setup, store: Store)
  {
    && DistinctIds(e.collectors) && e.investigable(store.target)
    && store == Store(store.target, store.startedAt, None, [], [], [], [])
  }

  function Blank(store: Store): (s: State)
  {
    State(map[], {store.target}, {}, {}, 0, 0, 0, false, store, 0, [])
  }

  lemma BlankRuns(e: Setup, store: Store)
    requires Ready(e, store)
    ensures var s := Blank(store);
      && Frontier(e, s) && Ledger(e, s) && Accounts(s, Open(s, {})) && HeldOk(s, {})
      && Scheduling(e, s, store.target, 0, FromTarget, 0)
  {
  }

  lemma BlankSources(e: Setup, store: Store)
    requires Ready(e, store)
    ensures var s := Blank(store);
      && Considered(e, s) && Covered(e, s, store.target, 0) && Books(s, 0)
      && Bounds(e, s, |e.collectors|, 0)
  {
  }

  lemma BeginRuns(e: Setup, store: Store)
    requires Ready(e, store)
    ensures RunsInOrder(e, Begin(e, store))
  {
    var s := Blank(store);
    BlankRuns(e, store);
    ScheduleFrame(e, s, store.target, 0, FromTarget, 0);
    ScheduleLedger(e, s, store.target, 0, FromTarget, 0);
    ScheduleAccounts(e, s, store.target, 0, FromTarget, 0, {});
  }

  lemma BeginSources(e: Setup, store: Store)
    requires Ready(e, store)
    ensures SourcesInOrder(e, Begin(e, store))
  {
    var s := Blank(store);
    BlankRuns(e, store);
    BlankSources(e, store);
    ScheduleFrame(e, s, store.target, 0, FromTarget, 0);
    ScheduleConsidered(e, s, store.target, 0, FromTarget, 0);
    ScheduleBooks(e, s, store.target, 0, FromTarget, 0, 0);
    ScheduleBounds(e, s, store.target, 0, FromTarget, 0, 0);
  }

  lemma BeginMeasure(e: Setup, store: Store)
    ensures Measure(e, Begin(e, store)) <= RunsLeft(1 + e.limits.maxEntities, |e.collectors|)
  {
    ScheduleFrame(e, Blank(store), store.target, 0, FromTarget, 0);
    assert |Blank(store).visited| == 1;
  }

  /** A possible run up to some join: its states keep all invariants, and it is no
      longer than the measure it started with. */
  lemma {:induction false} RunKeeps(e: Setup, s: State, events: seq<Event>)
    requires Resting(e, s) && Possible(e, s, events)
    ensures Resting(e, Play(e, s, events))
    ensures |events| + Measure(e, Play(e, s, events)) <= Measure(e, s)
    decreases |events|
  {
    if events != [] {
      StepProgress(e, s, events[0]);
      RunKeeps(e, Step(e, s, events[0]), events[1..]);
    }
  }

  /** The state reached by a run. */
  function Reached(e: Setup, store: Store, events: seq<Event>): (s: State)
  {
    Play(e, Begin(e, store), events)
  }

  ghost predicate Run(e: Setup, store: Store, events: seq<Event>)
  {
    Ready(e, store) && Possible(e, Begin(e, store), events)
  }

  lemma ReachedRests(e: Setup, store: Store, events: seq<Event>)
    requires Run(e, store, events)
    ensures Resting(e, Reached(e, store, events))
  {
    BeginRuns(e, store);
    BeginSources(e, store);
    RunKeeps(e, Begin(e, store), events);
  }

  // -------------------------------------------------------------- termination

  /** Under every order of joins, with or without the deadline, the loop ends
      after at most one join for each collector and each indicator that may be
      visited. */
  lemma LoopTerminates(e: Setup, store: Store, events: seq<Event>)
    requires Run(e, store, events)
    ensures |events| <= (1 + e.limits.maxEntities) * |e.collectors|
  {
    BeginRuns(e, store);
    BeginSources(e, store);
    RunKeeps(e, Begin(e, store), events);
    BeginMeasure(e, store);
    RunsLeftProduct(1 + e.limits.maxEntities, |e.collectors|);
  }

  /** In every reachable state the work stays bounded. */
  lemma WorkIsBounded(e: Setup, store: Store, events: seq<Event>)
    requires Run(e, store, events)
    ensures var s := Reached(e, store, events);
      && s.sourceRuns == |s.launches| <= |e.collectors| * (1 + e.limits.maxEntities)
      && |s.dropped| <= MAX_PIVOT_CANDIDATES * s.sourceRuns
  {
    ReachedRests(e, store, events);
    var s := Reached(e, store, events);
    BoundsGive(e, s);
  }

  lemma BoundsGive(e: Setup, s: State)
    requires Bounds(e, s, 0, 0) && Frontier(e, s)
    ensures |s.launches| <= |e.collectors| * (1 + e.limits.maxEntities)
    ensures |s.dropped| <= MAX_PIVOT_CANDIDATES * |s.launches|
  {
    Times(|e.collectors|, |s.visited|, 1 + e.limits.maxEntities);
  }

  lemma Times(c: nat, a: nat, b: nat)
    requires a <= b
    ensures c * a <= c * b
  {
    assert c * b == c * a + c * (b - a);
  }

  // ------------------------------------------------------------------- pivots

  /** In every reachable state: the target is visited and never dropped, nothing
      is both, everything visited may be investigated, and the number of followed
      pivots is exact and within its limit. */
  lemma PivotsWithinLimits(e: Setup, store: Store, events: seq<Event>)
    requires Run(e, store, events)
    ensures var s := Reached(e, store, events);
      && store.target in s.visited && s.visited !! s.dropped
      && (forall v :: v in s.visited ==> e.investigable(v))
      && s.pivotsFollowed == |s.visited| - 1 <= e.limits.maxEntities
  {
    ReachedRests(e, store, events);
    TargetKept(e, store, events);
  }

  lemma {:induction false} TargetKept(e: Setup, store: Store, events: seq<Event>)
    requires Run(e, store, events)
    ensures Reached(e, store, events).store.target == store.target
  {
    ScheduleFrame(e, Blank(store), store.target, 0, FromTarget, 0);
    PlayTarget(e, Begin(e, store), events);
  }

  lemma {:induction false} PlayTarget(e: Setup, s: State, events: seq<Event>)
    ensures Play(e, s, events).store.target == s.store.target
    decreases |events|
  {
    if events != [] {
      StepTarget(e, s, events[0]);
      PlayTarget(e, Step(e, s, events[0]), events[1..]);
    }
  }

  lemma StepTarget(e: Setup, s: State, event: Event)
    ensures Step(e, s, event).store.target == s.store.target
  {
    match event
    case Completed(id, end, from, to) =>
      if id in s.pending && end.Collected? {
        var c := end.collection;
        CompleteParts(e, s, id, end, from, to);
        MergeTarget(s.store, c);
        FollowAllTarget(e, Handed(s, id, c), Examined(c.pivots), Deeper(s.pending[id].depth), id);
      }
    case Crashed(id) =>
    case Deadline(order) => DrainTarget(Struck(s), order, e.clock(s.ticks));
  }

  lemma MergeTarget(s: Store, c: Collection)
    ensures MergeCollection(s, c).target == s.target
  {
    var s1 := AddObservations(s, c.observations);
    RelationshipsTarget(s1, c.relationships);
    FindingsTarget(AddRelationships(s1, c.relationships), c.findings);
  }

  lemma {:induction false} RelationshipsTarget(s: Store, rels: seq<Relationship>)
    ensures AddRelationships(s, rels).target == s.target
    decreases |rels|
  {
    if rels != [] { RelationshipsTarget(WithRelationship(s, rels[0]).0, rels[1..]); }
  }

  lemma {:induction false} FindingsTarget(s: Store, fs: seq<Finding>)
    ensures AddFindings(s, fs).target == s.target
    decreases |fs|
  {
    if fs != [] { FindingsTarget(WithFinding(s, fs[0]).0, fs[1..]); }
  }

  lemma {:induction false} FollowAllTarget(e: Setup, s: State, pivots: seq<Indicator>, depth: U8, i: nat)
    ensures FollowAll(e, s, pivots, depth, FromRun(i)).store.target == s.store.target
    decreases |pivots|
  {
    if pivots != [] {
      if Enters(e, s, pivots[0], depth) {
        ScheduleFrame(e, Entered(s, pivots[0]), pivots[0], depth, FromRun(i), 0);
      }
      FollowAllTarget(e, Follow(e, s, pivots[0], depth, FromRun(i)), pivots[1..], depth, i);
    }
  }

  lemma {:induction false} DrainTarget(s: State, order: seq<nat>, now: Timestamp)
    ensures Drain(s, order, now).store.target == s.store.target
    decreases |order|
  {
    if order != [] { DrainTarget(CutOff(s, order[0], now), order[1..], now); }
  }

  /** No two runs are of one collector on one indicator, and every run has a
      collector that takes its indicator, a visited one. */
  ghost predicate RunsOnce(e: Setup, s: State)
  {
    && (forall i, j :: 0 <= i < j < |s.launches| ==>
          s.launches[i].source != s.launches[j].source || s.launches[i].indicator != s.launches[j].indicator)
    && (forall i :: 0 <= i < |s.launches| ==>
          s.launches[i].indicator in s.visited && exists k :: Explains(e, k, s.launches[i]))
  }

  /** No collector is started twice on one indicator, and every start has a
      collector that takes the indicator. */
  lemma NoRunTwice(e: Setup, store: Store, events: seq<Event>)
    requires Run(e, store, events)
    ensures RunsOnce(e, Reached(e, store, events))
  {
    ReachedRests(e, store, events);
    LedgerExplains(e, Reached(e, store, events));
  }

  lemma LedgerExplains(e: Setup, s: State)
    requires Ledger(e, s)
    ensures RunsOnce(e, s)
  {
    forall i | 0 <= i < |s.launches|
      ensures s.launches[i].indicator in s.visited && exists k :: Explains(e, k, s.launches[i])
    {
      assert LaunchOk(e, s, i);
    }
  }

  // -------------------------------------------------------------------- depth

  function Saturated(n: nat): (r: U8)
  {
    if n <= 255 then n else 255
  }

  /** The depth label is the true path length, saturated at 255; it is within the
      limit, and the path is no longer than the number of followed pivots. */
  lemma {:induction false} DepthIsSaturatedHops(e: Setup, s: State, i: nat)
    requires Ledger(e, s) && i < |s.launches|
    ensures s.launches[i].depth == Saturated(s.launches[i].hops) <= e.limits.maxDepth
    ensures s.launches[i].hops <= |s.visited| - 1
    decreases i
  {
    assert LaunchOk(e, s, i);
    match s.launches[i].parent
    case None =>
    case Some(j) => DepthIsSaturatedHops(e, s, j);
  }

  /** Every run is at most `max_depth` hops from the target. */
  ghost predicate DepthLimitHolds(e: Setup, s: State)
  {
    forall i :: 0 <= i < |s.launches| ==> s.launches[i].hops <= e.limits.maxDepth
  }

  /** The depth limit is a limit on real path lengths unless it is 255 and more
      than 255 pivots may be followed. */
  lemma DepthLimitSufficient(e: Setup, store: Store, events: seq<Event>)
    requires Run(e, store, events)
    requires e.limits.maxDepth < 255 || e.limits.maxEntities <= 255
    ensures DepthLimitHolds(e, Reached(e, store, events))
  {
    ReachedRests(e, store, events);
    var s := Reached(e, store, events);
    forall i | 0 <= i < |s.launches| ensures s.launches[i].hops <= e.limits.maxDepth {
      DepthIsSaturatedHops(e, s, i);
    }
  }

  /** One collector for everything, each run of which hands over the next
      address. */
  function ChainSetup(limits: PivotLimits): (e: Setup)
  {
    Setup([Collector("chain", (i: Indicator) => true, true, (t: nat) => true)], limits,
          (i: Indicator) => true, (t: nat) => 0)
  }

  /** Public addresses. */
  function Link(n: nat): (i: Indicator)
    requires n <= 256
  {
    Ipv4(0x0808_0800 + n)
  }

  function ChainEvents(n: nat): (r: seq<Event>)
    requires n <= 256
  {
    if n == 0 then []
    else ChainEvents(n - 1) + [Completed(n - 1, Collected(Collection([], [], [], [Link(n)], [])), 0, 0)]
  }

  function ChainStore(): (s: Store)
  {
    Store(Link(0), 0, None, [], [], [], [])
  }

  lemma {:induction false} PossibleSnoc(e: Setup, s: State, events: seq<Event>, last: Event)
    requires Possible(e, s, events) && Enabled(Play(e, s, events), last)
    ensures Possible(e, s, events + [last])
    ensures Play(e, s, events + [last]) == Step(e, Play(e, s, events), last)
    decreases |events|
  {
    if events == [] {
      assert events + [last] == [last];
    } else {
      assert (events + [last])[1..] == events[1..] + [last];
      PossibleSnoc(e, Step(e, s, events[0]), events[1..], last);
    }
  }

  ghost predicate ChainState(s: State, n: nat)
    requires n <= 256
  {
    && |s.launches| == n + 1 && s.launches[n].hops == n && s.launches[n].depth == Saturated(n)
    && s.pending.Keys == {n} && s.pending[n].depth == Saturated(n) && s.dropped == {}
    && (forall v :: v in s.visited <==> exists k :: 0 <= k <= n && v == Link(k))
    && |s.visited| == n + 1
  }

  lemma {:induction false} ChainGrows(limits: PivotLimits, n: nat)
    requires limits.maxDepth == 255 && n <= limits.maxEntities && n <= 256
    ensures var e := ChainSetup(limits);
      Run(e, ChainStore(), ChainEvents(n)) && ChainState(Reached(e, ChainStore(), ChainEvents(n)), n)
  {
    var e := ChainSetup(limits);
    var c := e.collectors[0];
    if n == 0 {
      var s := Blank(ChainStore());
      assert Schedule(e, s, Link(0), 0, FromTarget, 0) == Offer(e, s, c, Link(0), 0, FromTarget);
      assert Link(0) in s.visited;
    } else {
      ChainGrows(limits, n - 1);
      var s := Reached(e, ChainStore(), ChainEvents(n - 1));
      var col := Collection([], [], [], [Link(n)], []);
      var last := Completed(n - 1, Collected(col), 0, 0);
      assert Enabled(s, last);
      PossibleSnoc(e, Begin(e, ChainStore()), ChainEvents(n - 1), last);
      ChainStep(e, s, limits, n);
    }
  }

  /** One link handed over is followed by one run. */
  lemma LinkFollowed(e: Setup, h: State, limits: PivotLimits, n: nat, depth: U8)
    requires e == ChainSetup(limits) && limits.maxDepth == 255 && n <= 256 && depth > 0
    requires Link(n) !in h.visited && Link(n) !in h.dropped && |h.visited| <= limits.maxEntities && n > 0
    ensures FollowAll(e, h, [Link(n)], depth, FromRun(n - 1))
         == Offer(e, Entered(h, Link(n)), e.collectors[0], Link(n), depth, FromRun(n - 1))
  {
    var next := Follow(e, h, Link(n), depth, FromRun(n - 1));
    assert [Link(n)][0] == Link(n) && [Link(n)][1..] == [];
    assert FollowAll(e, h, [Link(n)], depth, FromRun(n - 1)) == FollowAll(e, next, [], depth, FromRun(n - 1)) == next;
    var r := Offer(e, Entered(h, Link(n)), e.collectors[0], Link(n), depth, FromRun(n - 1));
    assert Schedule(e, Entered(h, Link(n)), Link(n), depth, FromRun(n - 1), 0) == Schedule(e, r, Link(n), depth, FromRun(n - 1), 1) == r;
  }

  lemma ChainVisited(s: State, visited: set<Indicator>, n: nat)
    requires 1 <= n <= 256 && ChainState(s, n - 1) && visited == s.visited + {Link(n)}
    ensures forall v :: v in visited <==> exists k :: 0 <= k <= n && v == Link(k)
    ensures |visited| == n + 1
  {
    forall v ensures v in visited <==> exists k :: 0 <= k <= n && v == Link(k) {
      assert v in s.visited <==> exists k :: 0 <= k <= n - 1 && v == Link(k);
    }
  }

  lemma ChainOffered(e: Setup, h: State, limits: PivotLimits, n: nat)
    requires e == ChainSetup(limits) && 1 <= n <= 256 && h.pending == map[] && |h.launches| == n
    requires h.launches[n - 1].hops == n - 1
    ensures var r := Offer(e, Entered(h, Link(n)), e.collectors[0], Link(n), Saturated(n), FromRun(n - 1));
      && |r.launches| == n + 1 && r.launches[n].hops == n && r.launches[n].depth == Saturated(n)
      && r.pending.Keys == {n} && r.pending[n].depth == Saturated(n)
      && r.dropped == h.dropped && r.visited == h.visited + {Link(n)}
  {
  }

  lemma ChainStep(e: Setup, s: State, limits: PivotLimits, n: nat)
    requires e == ChainSetup(limits) && limits.maxDepth == 255 && 1 <= n <= limits.maxEntities && n <= 256
    requires ChainState(s, n - 1)
    ensures ChainState(Complete(e, s, n - 1, Collected(Collection([], [], [], [Link(n)], [])), 0, 0), n)
  {
    var col := Collection([], [], [], [Link(n)], []);
    var h := Handed(s, n - 1, col);
    assert Link(n) !in h.visited && h.pending == map[] && Examined(col.pivots) == [Link(n)];
    LinkFollowed(e, h, limits, n, Saturated(n));
    ChainOffered(e, h, limits, n);
    ChainVisited(s, h.visited + {Link(n)}, n);
    CompleteParts(e, s, n - 1, Collected(col), 0, 0);
  }

  /** The condition is also necessary: with `max_depth` 255 and more than 255
      pivots allowed, some run follows a pivot 256 hops away. */
  lemma DepthLimitNecessary(limits: PivotLimits) returns (e: Setup, store: Store, events: seq<Event>)
    requires !(limits.maxDepth < 255 || limits.maxEntities <= 255)
    ensures e.limits == limits && Run(e, store, events)
    ensures !DepthLimitHolds(e, Reached(e, store, events))
  {
    e, store, events := ChainSetup(limits), ChainStore(), ChainEvents(256);
    ChainGrows(limits, 256);
    var s := Reached(e, store, events);
    assert s.launches[256].hops == 256;
  }
}
