/** What the finished investigation says about each event of its run: the status
    of every collector run tells how that run ended, and the figures count the
    candidates that were offered. */
module EngineHistory {
  import opened Results
  import opened Ordering
  import opened Model
  import opened Investigation
  import opened EngineSpec
  import opened EngineInvariants
  import opened EngineSteps
  import opened EngineTheorems
  import opened EngineReport
  import opened EngineOrder
  import opened EngineFindings

  // ------------------------------------------------------------------ frames

  /** Statuses are only added; the overflow count and the deadline flag stay. */
  ghost predicate Extends(s: State, r: State)
  {
    s.store.sources <= r.store.sources && r.overflow == s.overflow && r.deadlineExceeded == s.deadlineExceeded
  }

  lemma {:induction false} ScheduleExtends(e: Setup, s: State, ind: Indicator, depth: U8, origin: Origin, k: nat)
    requires k <= |e.collectors|
    ensures Extends(s, Schedule(e, s, ind, depth, origin, k))
    decreases |e.collectors| - k
  {
    if k < |e.collectors| {
      OfferCases(e, s, ind, depth, origin, k);
      ScheduleExtends(e, Offer(e, s, e.collectors[k], ind, depth, origin), ind, depth, origin, k + 1);
    }
  }

  lemma {:induction false} FollowAllExtends(e: Setup, s: State, pivots: seq<Indicator>, depth: U8, i: nat)
    ensures Extends(s, FollowAll(e, s, pivots, depth, FromRun(i)))
    decreases |pivots|
  {
    if pivots != [] {
      if Enters(e, s, pivots[0], depth) {
        ScheduleExtends(e, Entered(s, pivots[0]), pivots[0], depth, FromRun(i), 0);
      }
      FollowAllExtends(e, Follow(e, s, pivots[0], depth, FromRun(i)), pivots[1..], depth, i);
    }
  }

  lemma {:induction false} DrainExtends(s: State, order: seq<nat>, now: Timestamp)
    ensures Extends(s, Drain(s, order, now))
    decreases |order|
  {
    if order != [] { DrainExtends(CutOff(s, order[0], now), order[1..], now); }
  }

  lemma CollectedExtends(e: Setup, s: State, id: nat, c: Collection)
    requires Sound(s.store) && WellFormedAll(c) && id in s.pending
    ensures var r := Followed(e, s, id, c);
      && s.store.sources <= r.store.sources && r.overflow == s.overflow + (|c.pivots| - |Examined(c.pivots)|)
      && r.deadlineExceeded == s.deadlineExceeded
  {
    MergeFrame(s.store, c);
    FollowAllExtends(e, Handed(s, id, c), Examined(c.pivots), Deeper(s.pending[id].depth), id);
  }

  /** What an event adds to the statuses, the overflow count and the deadline flag. */
  ghost predicate Adds(s: State, r: State, excess: nat, cut: bool)
  {
    && s.store.sources <= r.store.sources && r.overflow == s.overflow + excess
    && (r.deadlineExceeded <==> s.deadlineExceeded || cut)
  }

  lemma CompleteAdds(e: Setup, s: State, id: nat, end: TaskEnd, from: Timestamp, to: Timestamp)
    requires Sound(s.store) && id in s.pending && (end.Collected? ==> WellFormedAll(end.collection))
    ensures Adds(s, Complete(e, s, id, end, from, to), |Excess(s, Completed(id, end, from, to))|, false)
  {
    CompleteParts(e, s, id, end, from, to);
    if end.Collected? { CollectedExtends(e, s, id, end.collection); }
  }

  lemma CancelAdds(e: Setup, s: State, order: seq<nat>)
    ensures Adds(s, Cancel(e, s, order), 0, true)
  {
    DrainExtends(Struck(s), order, e.clock(s.ticks));
  }

  lemma StepExtends(e: Setup, s: State, event: Event)
    requires Sound(s.store) && Enabled(s, event)
    ensures Adds(s, Step(e, s, event), |Excess(s, event)|, event.Deadline?)
  {
    match event
    case Completed(id, end, from, to) => CompleteAdds(e, s, id, end, from, to);
    case Crashed(id) =>
    case Deadline(order) => CancelAdds(e, s, order);
  }

  // -------------------------------------------------------- how each run ended

  /** The status that the event gives run `i`. */
  function StatusBy(e: Setup, s: State, event: Event, i: nat): (x: SourceStatus)
    requires i in s.pending
  {
    var task := s.pending[i];
    match event
    case Completed(_, end, from, to) => NewStatus(task.source, task.indicator, OutcomeOf(end), from, to)
    case Crashed(_) => NewStatus(task.source, task.indicator, Failed(CRASHED), task.queuedAt, e.clock(s.ticks))
    case Deadline(_) =>
      NewStatus(task.source, task.indicator, TimedOut(InvestigationLimit), task.queuedAt, e.clock(s.ticks))
  }

  /** The event takes run `i` off the table. */
  ghost predicate EndsRun(s: State, event: Event, i: nat)
  {
    && i in s.pending
    && match event case Completed(id, _, _, _) => id == i case Crashed(id) => id == i case Deadline(_) => true
  }

  /** The status called for by the event that ended run `i`, if one did. */
  ghost function StatusAtEnd(e: Setup, s: State, events: seq<Event>, i: nat): (r: Option<SourceStatus>)
    decreases |events|
  {
    if events == [] then None
    else if EndsRun(s, events[0], i) then Some(StatusBy(e, s, events[0], i))
    else StatusAtEnd(e, Step(e, s, events[0]), events[1..], i)
  }

  lemma {:induction false} DrainRecords(e: Setup, s: State, order: seq<nat>, now: Timestamp, i: nat)
    requires i in s.pending && i in order
    ensures NewStatus(s.pending[i].source, s.pending[i].indicator, TimedOut(InvestigationLimit), s.pending[i].queuedAt, now)
            in Drain(s, order, now).store.sources
    decreases |order|
  {
    var next := CutOff(s, order[0], now);
    if order[0] == i {
      DrainExtends(next, order[1..], now);
      var x := next.store.sources[|s.store.sources|];
      assert x in next.store.sources;
    } else {
      assert order == [order[0]] + order[1..];
      DrainRecords(e, next, order[1..], now, i);
    }
  }

  lemma StatusRecorded(e: Setup, s: State, event: Event, i: nat)
    requires Enabled(s, event) && EndsRun(s, event, i)
    ensures StatusBy(e, s, event, i) in Step(e, s, event).store.sources
  {
    match event
    case Completed(id, end, from, to) =>
      CompleteParts(e, s, id, end, from, to);
      var sources := Step(e, s, event).store.sources;
      assert sources[|sources| - 1] == StatusBy(e, s, event, i);
    case Crashed(id) =>
      var sources := Step(e, s, event).store.sources;
      assert sources[|sources| - 1] == StatusBy(e, s, event, i);
    case Deadline(order) =>
      DrainRecords(e, Struck(s), order, e.clock(s.ticks), i);
  }

  /** A run that ends by itself gets its status last: after what it found is merged and
      its pivots are considered. */
  lemma RecordedLast(e: Setup, s: State, event: Event)
    requires Enabled(s, event) && !event.Deadline?
    ensures var sources := Step(e, s, event).store.sources;
            sources != [] && sources[|sources| - 1] == StatusBy(e, s, event, event.task)
  {
    match event
    case Completed(id, end, from, to) => CompleteParts(e, s, id, end, from, to);
    case Crashed(id) =>
  }

  /** A run that no event ended is still on the table, as are the runs it starts. */
  lemma StillPending(e: Setup, s: State, event: Event, i: nat)
    requires Resting(e, s) && Enabled(s, event) && !EndsRun(s, event, i)
    requires i in s.pending || (i >= |s.launches| && i < |Step(e, s, event).launches|)
    ensures i in Step(e, s, event).pending
  {
    match event
    case Completed(id, end, from, to) =>
      CompleteParts(e, s, id, end, from, to);
      if end.Collected? {
        var h := Handed(s, id, end.collection);
        FollowAllGrows(e, h, Examined(end.collection.pivots), Deeper(s.pending[id].depth), id);
        assert i in h.pending.Keys || i >= |h.launches|;
      }
    case Crashed(id) =>
    case Deadline(order) => CancelEmpties(e, s, order);
  }

  lemma {:induction false} EveryEndRecorded(e: Setup, s: State, events: seq<Event>, i: nat)
    requires Resting(e, s) && Possible(e, s, events)
    requires (i in s.pending || i >= |s.launches|) && i < |Play(e, s, events).launches| && i !in Play(e, s, events).pending
    ensures StatusAtEnd(e, s, events, i).Some?
    ensures StatusAtEnd(e, s, events, i).value in Play(e, s, events).store.sources
    decreases |events|
  {
    if events != [] {
      var r := Step(e, s, events[0]);
      StepProgress(e, s, events[0]);
      if EndsRun(s, events[0], i) {
        StatusRecorded(e, s, events[0], i);
        PlayExtends(e, r, events[1..]);
      } else {
        if i in s.pending || i < |r.launches| { StillPending(e, s, events[0], i); }
        EveryEndRecorded(e, r, events[1..], i);
      }
    }
  }

  lemma {:induction false} PlayExtends(e: Setup, s: State, events: seq<Event>)
    requires Resting(e, s) && Possible(e, s, events)
    ensures s.store.sources <= Play(e, s, events).store.sources
    decreases |events|
  {
    if events != [] {
      StepExtends(e, s, events[0]);
      StepProgress(e, s, events[0]);
      PlayExtends(e, Step(e, s, events[0]), events[1..]);
    }
  }

  lemma {:induction false} OnlyOne(ss: seq<SourceStatus>, p: SourceStatus -> bool, x: SourceStatus, y: SourceStatus)
    requires Count(ss, p) == 1 && x in ss && y in ss && p(x) && p(y)
    ensures x == y
  {
    var init, last := ss[..|ss| - 1], ss[|ss| - 1];
    assert ss == init + [last];
    if p(last) {
      CountPositive(init, p);
    } else {
      OnlyOne(init, p, x, y);
    }
  }

  /** Whether the status is of this run. */
  predicate IsOf(x: SourceStatus, launch: Launch)
  {
    x.outcome.IsRun() && x.source == launch.source && x.indicator == launch.indicator
  }

  lemma StatusIsOf(e: Setup, s: State, event: Event, i: nat)
    requires Ledger(e, s) && EndsRun(s, event, i)
    ensures i < |s.launches| && IsOf(StatusBy(e, s, event, i), s.launches[i])
  {
  }

  lemma {:induction false} StatusNames(e: Setup, s: State, events: seq<Event>, i: nat)
    requires Resting(e, s) && Possible(e, s, events) && StatusAtEnd(e, s, events, i).Some?
    ensures i < |Play(e, s, events).launches|
    ensures IsOf(StatusAtEnd(e, s, events, i).value, Play(e, s, events).launches[i])
    decreases |events|
  {
    var r := Step(e, s, events[0]);
    StepProgress(e, s, events[0]);
    if EndsRun(s, events[0], i) {
      StatusIsOf(e, s, events[0], i);
      PlayLaunches(e, r, events[1..]);
      assert s.launches <= r.launches <= Play(e, r, events[1..]).launches;
    } else {
      StatusNames(e, r, events[1..], i);
    }
  }

  lemma {:induction false} PlayLaunches(e: Setup, s: State, events: seq<Event>)
    requires Resting(e, s) && Possible(e, s, events)
    ensures s.launches <= Play(e, s, events).launches
    decreases |events|
  {
    if events != [] {
      StepProgress(e, s, events[0]);
      PlayLaunches(e, Step(e, s, events[0]), events[1..]);
    }
  }

  lemma EndRecorded(e: Setup, store: Store, events: seq<Event>, i: nat)
    requires Ended(e, store, events) && i < |Reached(e, store, events).launches|
    ensures var s, end := Reached(e, store, events), StatusAtEnd(e, Begin(e, store), events, i);
      end.Some? && end.value in s.store.sources && IsOf(end.value, s.launches[i])
  {
    BeginRests(e, store);
    assert i in Begin(e, store).pending || i >= |Begin(e, store).launches| by {
      if i < |Begin(e, store).launches| { BeginPending(e, store, i); }
    }
    EveryEndRecorded(e, Begin(e, store), events, i);
    StatusNames(e, Begin(e, store), events, i);
  }

  lemma BeginRests(e: Setup, store: Store)
    requires Ready(e, store)
    ensures Resting(e, Begin(e, store))
  {
    BeginRuns(e, store);
    BeginSources(e, store);
  }

  lemma BeginPending(e: Setup, store: Store, i: nat)
    requires i < |Begin(e, store).launches|
    ensures i in Begin(e, store).pending
  {
    ScheduleGrows(e, Blank(store), store.target, 0, FromTarget, 0);
    assert i in Begin(e, store).pending.Keys;
  }

  /** The report has one status of the run, the one called for by the event that
      ended it. */
  ghost predicate ReportedAsItEnded(e: Setup, store: Store, events: seq<Event>, i: nat)
    requires i < |Reached(e, store, events).launches|
  {
    var launch, sources := Reached(e, store, events).launches[i], Report(e, store, events).store.sources;
    && RunStatuses(sources, launch.source, launch.indicator) == 1
    && StatusAtEnd(e, Begin(e, store), events, i).Some?
    && forall x :: x in sources && IsOf(x, launch) <==> Some(x) == StatusAtEnd(e, Begin(e, store), events, i)
  }

  /** Every run that was started has exactly one status in the report, the one
      that the event which ended it calls for: its own result, a crash, or the
      deadline, at the times of that event. No other run has a status. */
  lemma RunsReportedAsTheyEnded(e: Setup, store: Store, events: seq<Event>)
    requires Ended(e, store, events)
    ensures var s, sources := Reached(e, store, events), Report(e, store, events).store.sources;
      && (forall i :: 0 <= i < |s.launches| ==> ReportedAsItEnded(e, store, events, i))
      && (forall x :: x in sources && x.outcome.IsRun() ==> Launched(s, x.source, x.indicator))
  {
    forall i | 0 <= i < |Reached(e, store, events).launches| ensures ReportedAsItEnded(e, store, events, i) {
      RunReported(e, store, events, i);
    }
    EachRunReportedOnce(e, store, events);
  }

  lemma RunReported(e: Setup, store: Store, events: seq<Event>, i: nat)
    requires Ended(e, store, events) && i < |Reached(e, store, events).launches|
    ensures ReportedAsItEnded(e, store, events, i)
  {
    var s, sources := Reached(e, store, events), Report(e, store, events).store.sources;
    var launch := s.launches[i];
    RunStatusCount(e, store, events, i);
    EndRecorded(e, store, events, i);
    RecordedStay(e, s.store, s.considered, Later(e.clock(s.ticks), s.store.startedAt), 0);
    var x := StatusAtEnd(e, Begin(e, store), events, i).value;
    forall y | y in sources && IsOf(y, launch) ensures y == x {
      OnlyOne(sources, (x: SourceStatus) => x.outcome.IsRun() && x.source == launch.source && x.indicator == launch.indicator, x, y);
    }
  }

  lemma {:induction false} RecordedStay(e: Setup, s: Store, considered: set<SourceId>, now: Timestamp, k: nat)
    requires k <= |e.collectors|
    ensures s.sources <= RecordUnsupported(e, s, considered, now, k).sources
    decreases |e.collectors| - k
  {
    if k < |e.collectors| {
      var c := e.collectors[k];
      RecordedStay(e, if c.id in considered then s else WithSource(s, NewStatus(c.id, s.target, Unsupported, now, now)),
                   considered, now, k + 1);
    }
  }

  // -------------------------------------------------------- offered candidates

  function Candidates(s: State, event: Event): (r: seq<Indicator>)
  {
    if event.Completed? && event.task in s.pending && event.end.Collected? then event.end.collection.pivots else []
  }

  /** The candidates of the event beyond those that are examined. */
  function Excess(s: State, event: Event): (r: seq<Indicator>)
  {
    var pivots := Candidates(s, event);
    pivots[|Examined(pivots)|..]
  }

  /** All candidates examined in a run, in order. */
  function AllExamined(e: Setup, s: State, events: seq<Event>): (r: seq<Indicator>)
    decreases |events|
  {
    if events == [] then []
    else Examined(Candidates(s, events[0])) + AllExamined(e, Step(e, s, events[0]), events[1..])
  }

  function AllExcess(e: Setup, s: State, events: seq<Event>): (r: seq<Indicator>)
    decreases |events|
  {
    if events == [] then [] else Excess(s, events[0]) + AllExcess(e, Step(e, s, events[0]), events[1..])
  }

  lemma StepDecides(e: Setup, s: State, event: Event)
    requires Enabled(s, event)
    ensures var r, pivots := Step(e, s, event), Examined(Candidates(s, event));
      && s.visited <= r.visited && s.dropped <= r.dropped
      && (forall p :: p in pivots ==> p in r.visited || p in r.dropped)
      && (forall p :: p in r.visited || p in r.dropped ==> p in s.visited || p in s.dropped || p in pivots)
  {
    match event
    case Completed(id, end, from, to) =>
      CompleteParts(e, s, id, end, from, to);
      if end.Collected? {
        FollowAllGrows(e, Handed(s, id, end.collection), Examined(end.collection.pivots), Deeper(s.pending[id].depth), id);
      }
    case Crashed(id) =>
    case Deadline(order) => DrainKeeps(Struck(s), order, e.clock(s.ticks));
  }

  /** What became of the candidates offered between two states. */
  ghost predicate Decided(s: State, r: State, examined: seq<Indicator>, excess: seq<Indicator>)
  {
    && (forall p :: p in r.visited || p in r.dropped <==> p in s.visited || p in s.dropped || p in examined)
    && r.overflow == s.overflow + |excess|
  }

  lemma {:induction false} PlayDecides(e: Setup, s: State, events: seq<Event>)
    requires Resting(e, s) && Possible(e, s, events)
    ensures Decided(s, Play(e, s, events), AllExamined(e, s, events), AllExcess(e, s, events))
    decreases |events|
  {
    if events != [] {
      StepExtends(e, s, events[0]);
      StepDecides(e, s, events[0]);
      StepProgress(e, s, events[0]);
      PlayDecides(e, Step(e, s, events[0]), events[1..]);
    }
  }

  lemma {:induction false} PlayDeadline(e: Setup, s: State, events: seq<Event>)
    requires Resting(e, s) && Possible(e, s, events)
    ensures Play(e, s, events).deadlineExceeded <==>
              s.deadlineExceeded || exists k :: 0 <= k < |events| && events[k].Deadline?
    decreases |events|
  {
    if events != [] {
      StepExtends(e, s, events[0]);
      StepProgress(e, s, events[0]);
      PlayDeadline(e, Step(e, s, events[0]), events[1..]);
      DeadlineCons(events);
    }
  }

  lemma DeadlineCons(events: seq<Event>)
    requires events != []
    ensures (exists k :: 0 <= k < |events| && events[k].Deadline?) <==>
              events[0].Deadline? || exists k :: 0 <= k < |events[1..]| && events[1..][k].Deadline?
  {
    if k :| 1 <= k < |events| && events[k].Deadline? { assert events[1..][k - 1].Deadline?; }
  }

  lemma BeginDecides(e: Setup, store: Store)
    ensures var s := Begin(e, store);
      s.visited == {store.target} && s.dropped == {} && s.overflow == 0 && !s.deadlineExceeded
  {
    ScheduleFrame(e, Blank(store), store.target, 0, FromTarget, 0);
    ScheduleExtends(e, Blank(store), store.target, 0, FromTarget, 0);
  }

  ghost function Members<T(!new)>(s: seq<T>): (r: set<T>)
  {
    set x | x in s
  }

  /** All candidates that were offered and not followed. */
  ghost function NotFollowed(e: Setup, store: Store, events: seq<Event>): (r: set<Indicator>)
  {
    var b := Begin(e, store);
    Unfollowed(AllExamined(e, b, events), AllExcess(e, b, events), Reached(e, store, events).visited)
  }

  ghost function Unfollowed(examined: seq<Indicator>, excess: seq<Indicator>, visited: set<Indicator>): (r: set<Indicator>)
  {
    Members(examined) + Members(excess) - visited
  }

  /** Every candidate is examined, and the excess candidates are all different,
      from each other and from the target and the examined ones. */
  ghost predicate CountedOnce(target: Indicator, examined: seq<Indicator>, excess: seq<Indicator>)
  {
    NoDuplicates(excess) && forall p :: p in excess ==> p != target && p !in examined
  }

  lemma {:induction false} MemberCount<T(!new)>(s: seq<T>)
    ensures |Members(s)| <= |s|
    ensures |Members(s)| == |s| <==> NoDuplicates(s)
  {
    if s == [] {
      assert Members(s) == {};
    } else {
      var init, last := s[..|s| - 1], s[|s| - 1];
      MemberCount(init);
      assert Members(s) == Members(init) + {last};
      if last in init {
        var i :| 0 <= i < |init| && init[i] == last;
        assert s[i] == s[|s| - 1];
        assert Members(s) == Members(init);
      } else {
        assert last !in Members(init);
      }
    }
  }

  lemma CountDifference(all: set<Indicator>, excess: seq<Indicator>, decided: set<Indicator>)
    requires all == Members(excess) - decided
    ensures |all| <= |excess|
    ensures |all| == |excess| <==> NoDuplicates(excess) && forall p :: p in excess ==> p !in decided
  {
    MemberCount(excess);
    SubsetSize(all, Members(excess));
    if |all| == |Members(excess)| {
      assert Members(excess) == all + (Members(excess) - all);
      assert |Members(excess)| == |all| + |Members(excess) - all|;
      assert Members(excess) == all;
      forall p | p in excess ensures p !in decided { assert p in Members(excess); }
    }
    if forall p :: p in excess ==> p !in decided { assert all == Members(excess); }
  }

  /** The candidates rejected for good are exactly those examined and not followed. */
  lemma RejectedAreExamined(e: Setup, store: Store, events: seq<Event>)
    requires Run(e, store, events)
    ensures var s := Reached(e, store, events);
      s.dropped == Members(AllExamined(e, Begin(e, store), events)) - s.visited
  {
    var s := Reached(e, store, events);
    DecidedSoFar(e, store, events);
    PivotsWithinLimits(e, store, events);
    NotVisited(s.visited, s.dropped, store.target, AllExamined(e, Begin(e, store), events));
  }

  lemma NotVisited(visited: set<Indicator>, dropped: set<Indicator>, target: Indicator, examined: seq<Indicator>)
    requires forall p :: p in visited || p in dropped <==> p == target || p in examined
    requires target in visited && visited !! dropped
    ensures dropped == Members(examined) - visited
  {
  }

  /** The figures of the finished run. Started runs, followed pivots and the
      deadline flag are exact. The number of candidates not followed is never too
      small, and it is the number of different candidates offered and not followed
      exactly when no candidate beyond the examined ones was counted twice. */
  lemma FiguresExactly(e: Setup, store: Store, events: seq<Event>)
    requires Ended(e, store, events)
    ensures var s, b, stats := Reached(e, store, events), Begin(e, store), Report(e, store, events).stats;
      && stats.sourceRuns == |s.launches| <= |e.collectors| * (1 + e.limits.maxEntities)
      && stats.pivotsFollowed == |s.visited| - 1 <= e.limits.maxEntities
      && (stats.deadlineExceeded <==> exists k :: 0 <= k < |events| && events[k].Deadline?)
      && stats.pivotsDropped == |Members(AllExamined(e, b, events)) - s.visited| + |AllExcess(e, b, events)|
      && stats.pivotsDropped >= |NotFollowed(e, store, events)|
      && (stats.pivotsDropped == |NotFollowed(e, store, events)| <==>
            CountedOnce(store.target, AllExamined(e, b, events), AllExcess(e, b, events)))
  {
    WorkIsBounded(e, store, events);
    PivotsWithinLimits(e, store, events);
    CandidatesDecided(e, store, events);
    DeadlineFlag(e, store, events);
  }

  lemma DeadlineFlag(e: Setup, store: Store, events: seq<Event>)
    requires Run(e, store, events)
    ensures Reached(e, store, events).deadlineExceeded <==> exists k :: 0 <= k < |events| && events[k].Deadline?
  {
    BeginRests(e, store);
    BeginDecides(e, store);
    PlayDeadline(e, Begin(e, store), events);
  }

  lemma DecidedFrom(b: State, s: State, target: Indicator, examined: seq<Indicator>, excess: seq<Indicator>)
    requires Decided(b, s, examined, excess) && b.visited == {target} && b.dropped == {} && b.overflow == 0
    ensures s.overflow == |excess| && forall p :: p in s.visited || p in s.dropped <==> p == target || p in examined
  {
  }

  lemma DecidedSoFar(e: Setup, store: Store, events: seq<Event>)
    requires Run(e, store, events)
    ensures var s, b := Reached(e, store, events), Begin(e, store);
      && s.overflow == |AllExcess(e, b, events)|
      && forall p :: p in s.visited || p in s.dropped <==> p == store.target || p in AllExamined(e, b, events)
  {
    BeginRests(e, store);
    BeginDecides(e, store);
    var b := Begin(e, store);
    PlayDecides(e, b, events);
    DecidedFrom(b, Reached(e, store, events), store.target, AllExamined(e, b, events), AllExcess(e, b, events));
  }

  lemma CandidatesDecided(e: Setup, store: Store, events: seq<Event>)
    requires Run(e, store, events)
    ensures var s, b := Reached(e, store, events), Begin(e, store);
      && s.dropped == Members(AllExamined(e, b, events)) - s.visited && s.overflow == |AllExcess(e, b, events)|
      && |NotFollowed(e, store, events)| <= |s.dropped| + s.overflow
      && (|NotFollowed(e, store, events)| == |s.dropped| + s.overflow <==>
            CountedOnce(store.target, AllExamined(e, b, events), AllExcess(e, b, events)))
  {
    var s, b := Reached(e, store, events), Begin(e, store);
    RejectedAreExamined(e, store, events);
    DecidedSoFar(e, store, events);
    NotFollowedCount(store.target, AllExamined(e, b, events), AllExcess(e, b, events), s.visited, s.dropped);
  }

  lemma NotFollowedCount(target: Indicator, examined: seq<Indicator>, excess: seq<Indicator>, visited: set<Indicator>,
                         dropped: set<Indicator>)
    requires dropped == Members(examined) - visited
    requires forall p :: p in visited || p in dropped <==> p == target || p in examined
    ensures |Unfollowed(examined, excess, visited)| <= |dropped| + |excess|
    ensures |Unfollowed(examined, excess, visited)| == |dropped| + |excess| <==> CountedOnce(target, examined, excess)
  {
    var beyond := Members(excess) - (visited + dropped);
    assert Unfollowed(examined, excess, visited) == dropped + beyond;
    assert |Unfollowed(examined, excess, visited)| == |dropped| + |beyond|;
    CountDifference(beyond, excess, visited + dropped);
  }
}
