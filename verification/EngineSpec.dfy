/** What the investigation engine does, as functions on values
    (crates/collectors/src/engine/mod.rs).

    A collector task ends in any way and at any time, so the environment is an
    arbitrary sequence of join events; the clock and the availability of a
    collector answer each query as they like. The state carries the history of
    launched runs beside the fields of `Run`. */
module EngineSpec {
  import opened Results
  import opened Model
  import opened Investigation

  const MAX_PIVOT_CANDIDATES: nat := 1000

  type U8 = n: nat | n <= 255

  datatype PivotLimits = PivotLimits(maxDepth: U8, maxEntities: nat)

  /** `ready` answers the n-th query of the run. */
  datatype Collector = Collector(id: SourceId, supports: Indicator -> bool, onPivots: bool, ready: nat -> bool)

  datatype Setup = Setup(collectors: seq<Collector>, limits: PivotLimits, investigable: Indicator -> bool,
                         clock: nat -> Timestamp)

  /** Collector identifiers are distinct, as registration ensures. */
  ghost predicate DistinctIds(collectors: seq<Collector>)
  {
    forall i, j :: 0 <= i < j < |collectors| ==> collectors[i].id != collectors[j].id
  }

  datatype Task = Task(source: SourceId, indicator: Indicator, depth: U8, queuedAt: Timestamp)

  /** One collector run that was started; its position is its task identifier.
      `hops` is the true length of the path from the target. */
  datatype Launch = Launch(source: SourceId, indicator: Indicator, depth: U8, parent: Option<nat>, hops: nat)

  datatype Collection = Collection(observations: seq<Observation>, relationships: seq<Relationship>,
                                   findings: seq<Finding>, pivots: seq<Indicator>, failures: seq<string>)

  datatype TaskEnd =
    | Collected(collection: Collection)
    | BudgetRefused(budget: nat)
    | Errored(text: string)
    | SourceTimeout

  datatype State = State(
    pending: map<nat, Task>, visited: set<Indicator>, considered: set<SourceId>, dropped: set<Indicator>,
    overflow: nat, sourceRuns: nat, pivotsFollowed: nat, deadlineExceeded: bool,
    store: Store, ticks: nat, launches: seq<Launch>)

  // --------------------------------------------------------------- schedule

  /** What started the current scheduling: the target itself, or a pivot found by
      a run. */
  datatype Origin = FromTarget | FromRun(run: nat)

  function HopsFrom(s: State, origin: Origin): (r: nat)
  {
    match origin
    case FromTarget => 0
    case FromRun(i) => if i < |s.launches| then s.launches[i].hops + 1 else 1
  }

  function Spawn(e: Setup, s: State, source: SourceId, indicator: Indicator, depth: U8, origin: Origin): (r: State)
  {
    s.(pending := s.pending[|s.launches| := Task(source, indicator, depth, e.clock(s.ticks))],
       ticks := s.ticks + 1,
       sourceRuns := s.sourceRuns + 1,
       launches := s.launches + [Launch(source, indicator, depth,
                                        if origin.FromRun? then Some(origin.run) else None,
                                        HopsFrom(s, origin))])
  }

  /** Whether the collector takes this indicator at this depth. */
  predicate Applies(c: Collector, indicator: Indicator, depth: U8)
  {
    c.supports(indicator) && (depth == 0 || c.onPivots)
  }

  /** Offers an indicator to one collector: one "unavailable" status a source, or
      a run. */
  function Offer(e: Setup, s: State, c: Collector, indicator: Indicator, depth: U8, origin: Origin): (r: State)
  {
    if !Applies(c, indicator, depth) then s
    else if !c.ready(s.ticks) then
      if c.id in s.considered then s.(ticks := s.ticks + 1)
      else
        var now := e.clock(s.ticks + 1);
        s.(ticks := s.ticks + 2,
           considered := s.considered + {c.id},
           store := WithSource(s.store, NewStatus(c.id, indicator, Unavailable, now, now)))
    else
      var asked := s.(ticks := s.ticks + 1, considered := s.considered + {c.id});
      Spawn(e, asked, c.id, indicator, depth, origin)
  }

  /** Offers the indicator to the collectors from position `k` on. */
  function Schedule(e: Setup, s: State, indicator: Indicator, depth: U8, origin: Origin, k: nat): (r: State)
    requires k <= |e.collectors|
    decreases |e.collectors| - k
  {
    if k == |e.collectors| then s
    else Schedule(e, Offer(e, s, e.collectors[k], indicator, depth, origin), indicator, depth, origin, k + 1)
  }

  // ----------------------------------------------------------------- pivots

  function Deeper(depth: U8): (r: U8)
  {
    if depth == 255 then 255 else depth + 1
  }

  predicate Rejected(e: Setup, s: State, pivot: Indicator, depth: U8)
  {
    || depth > e.limits.maxDepth
    || |s.visited| - 1 >= e.limits.maxEntities
    || !e.investigable(pivot)
  }

  function Follow(e: Setup, s: State, pivot: Indicator, depth: U8, origin: Origin): (r: State)
  {
    if pivot in s.visited || pivot in s.dropped then s
    else if Rejected(e, s, pivot, depth) then s.(dropped := s.dropped + {pivot})
    else
      Schedule(e, s.(visited := s.visited + {pivot}, pivotsFollowed := s.pivotsFollowed + 1),
               pivot, depth, origin, 0)
  }

  function FollowAll(e: Setup, s: State, pivots: seq<Indicator>, depth: U8, origin: Origin): (r: State)
    decreases |pivots|
  {
    if pivots == [] then s else FollowAll(e, Follow(e, s, pivots[0], depth, origin), pivots[1..], depth, origin)
  }

  function Examined(pivots: seq<Indicator>): (r: seq<Indicator>)
    ensures |r| <= MAX_PIVOT_CANDIDATES
  {
    if |pivots| <= MAX_PIVOT_CANDIDATES then pivots else pivots[..MAX_PIVOT_CANDIDATES]
  }

  function ConsiderPivots(e: Setup, s: State, pivots: seq<Indicator>, parentDepth: U8, origin: Origin): (r: State)
  {
    var excess := |pivots| - |Examined(pivots)|;
    FollowAll(e, s.(overflow := s.overflow + excess), Examined(pivots), Deeper(parentDepth), origin)
  }

  // ------------------------------------------------------------------ merge

  function AddObservations(s: Store, os: seq<Observation>): (r: Store)
  {
    s.(observations := s.observations + os)
  }

  function AddRelationships(s: Store, rels: seq<Relationship>): (r: Store)
    decreases |rels|
  {
    if rels == [] then s else AddRelationships(WithRelationship(s, rels[0]).0, rels[1..])
  }

  function AddFindings(s: Store, fs: seq<Finding>): (r: Store)
    decreases |fs|
  {
    if fs == [] then s else AddFindings(WithFinding(s, fs[0]).0, fs[1..])
  }

  /** Relationships and findings with evidence the store does not hold are
      discarded. */
  function MergeCollection(s: Store, c: Collection): (r: Store)
  {
    AddFindings(AddRelationships(AddObservations(s, c.observations), c.relationships), c.findings)
  }

  // ------------------------------------------------------------ join events

  datatype Event =
    | Completed(task: nat, end: TaskEnd, startedAt: Timestamp, finishedAt: Timestamp)
    | Crashed(task: nat)
    | Deadline(order: seq<nat>)

  function OutcomeOf(end: TaskEnd): (r: SourceOutcome)
  {
    match end
    case Collected(c) =>
      if c.failures == [] then Succeeded(|c.observations|) else Partial(|c.observations|, c.failures)
    case BudgetRefused(limit) => BudgetExhausted(limit)
    case Errored(text) => Failed(text)
    case SourceTimeout => TimedOut(SourceLimit)
  }

  /** Taking a task off the table. */
  function Taken(s: State, id: nat): (r: State)
  {
    s.(pending := s.pending - {id})
  }

  /** Recording a status. */
  function Settled(s: State, x: SourceStatus): (r: State)
  {
    s.(store := WithSource(s.store, x))
  }

  /** A task finished: merge what it found, follow its pivots, then record its
      status. A task that is not tracked changes nothing. */
  function Complete(e: Setup, s: State, id: nat, end: TaskEnd, startedAt: Timestamp, finishedAt: Timestamp): (r: State)
  {
    if id !in s.pending then s
    else
      var task := s.pending[id];
      var s1 := Taken(s, id);
      var s2 := if end.Collected?
                then ConsiderPivots(e, s1.(store := MergeCollection(s1.store, end.collection)),
                                    end.collection.pivots, task.depth, FromRun(id))
                else s1;
      Settled(s2, NewStatus(task.source, task.indicator, OutcomeOf(end), startedAt, finishedAt))
  }

  const CRASHED: string := "collector crashed"

  function Crash(e: Setup, s: State, id: nat): (r: State)
  {
    if id !in s.pending then s
    else
      var task := s.pending[id];
      Settled(Taken(s, id).(ticks := s.ticks + 1),
              NewStatus(task.source, task.indicator, Failed(CRASHED), task.queuedAt, e.clock(s.ticks)))
  }

  /** A task cut by the deadline. */
  function CutOff(s: State, id: nat, now: Timestamp): (r: State)
  {
    if id !in s.pending then s
    else
      var task := s.pending[id];
      Settled(Taken(s, id), NewStatus(task.source, task.indicator, TimedOut(InvestigationLimit), task.queuedAt, now))
  }

  function Drain(s: State, order: seq<nat>, now: Timestamp): (r: State)
    decreases |order|
  {
    if order == [] then s else Drain(CutOff(s, order[0], now), order[1..], now)
  }

  /** The global deadline: every unfinished run is cancelled and recorded, in the
      arbitrary order of the table. */
  function Cancel(e: Setup, s: State, order: seq<nat>): (r: State)
  {
    Drain(Struck(s), order, e.clock(s.ticks))
  }

  function Struck(s: State): (r: State)
  {
    s.(deadlineExceeded := true, ticks := s.ticks + 1)
  }

  function Step(e: Setup, s: State, event: Event): (r: State)
  {
    match event
    case Completed(id, end, started, finished) => Complete(e, s, id, end, started, finished)
    case Crashed(id) => Crash(e, s, id)
    case Deadline(order) => Cancel(e, s, order)
  }

  /** Only a live task can be joined; joining with none left ends the loop, so
      the deadline strikes only while some task is unfinished. */
  ghost predicate Enabled(s: State, event: Event)
  {
    match event
    case Completed(id, end, _, _) =>
      id in s.pending &&
      (end.Collected? ==> forall i :: 0 <= i < |end.collection.relationships| ==> WellFormed(end.collection.relationships[i]))
    case Crashed(id) => id in s.pending
    case Deadline(order) => s.pending != map[] && forall id :: id in order <==> id in s.pending
  }

  function Begin(e: Setup, store: Store): (r: State)
  {
    var s := State(map[], {store.target}, {}, {}, 0, 0, 0, false, store, 0, []);
    Schedule(e, s, store.target, 0, FromTarget, 0)
  }

  ghost predicate Possible(e: Setup, s: State, events: seq<Event>)
    decreases |events|
  {
    events == [] || (Enabled(s, events[0]) && Possible(e, Step(e, s, events[0]), events[1..]))
  }

  function Play(e: Setup, s: State, events: seq<Event>): (r: State)
    decreases |events|
  {
    if events == [] then s else Play(e, Step(e, s, events[0]), events[1..])
  }

  // ------------------------------------------------------------------- end

  /** Sources that never saw an indicator for them get one status. */
  function RecordUnsupported(e: Setup, s: Store, considered: set<SourceId>, now: Timestamp, k: nat): (r: Store)
    requires k <= |e.collectors|
    decreases |e.collectors| - k
  {
    if k == |e.collectors| then s
    else
      var c := e.collectors[k];
      RecordUnsupported(e,
        if c.id in considered then s else WithSource(s, NewStatus(c.id, s.target, Unsupported, now, now)),
        considered, now, k + 1)
  }

  function Later(a: Timestamp, b: Timestamp): (r: Timestamp)
  {
    if a >= b then a else b
  }

  datatype RunStats = RunStats(sourceRuns: nat, pivotsFollowed: nat, pivotsDropped: nat, deadlineExceeded: bool)

  datatype EngineRun = EngineRun(store: Store, stats: RunStats)

  function Close(e: Setup, s: State): (r: EngineRun)
  {
    var now := Later(e.clock(s.ticks), s.store.startedAt);
    var accounted := RecordUnsupported(e, s.store, s.considered, now, 0);
    var end := Later(e.clock(s.ticks + 1), s.store.startedAt);
    EngineRun(Finished(accounted, end).0,
              RunStats(s.sourceRuns, s.pivotsFollowed, |s.dropped| + s.overflow, s.deadlineExceeded))
  }
}
