/** What each status of a finished investigation says, apart from how its run ended:
    which answer of which collector it records, and which readings of the clock. */
module EngineStatuses {
  import opened Results
  import opened Model
  import opened Investigation
  import opened EngineSpec
  import opened EngineInvariants
  import opened EngineSteps
  import opened EngineTheorems
  import opened EngineReport
  import opened EngineRecords

  // ----------------------------------------------------------------- outcomes

  /** The outcome of a run tells how it ended: a collection without failures is a
      success and one with failures is partial, each with the number of its
      observations; an exhausted budget, an error and a timeout are told apart. */
  lemma OutcomeExactly(end: TaskEnd)
    ensures var r := OutcomeOf(end);
      && (forall n :: r == Succeeded(n) <==>
            end.Collected? && end.collection.failures == [] && n == |end.collection.observations|)
      && (forall n, fs :: r == Partial(n, fs) <==>
            end.Collected? && fs != [] && end.collection.failures == fs && n == |end.collection.observations|)
      && (forall n :: r == BudgetExhausted(n) <==> end == BudgetRefused(n))
      && (forall text :: r == Failed(text) <==> end == Errored(text))
      && (r == TimedOut(SourceLimit) <==> end == SourceTimeout) && r != TimedOut(InvestigationLimit) && r.IsRun()
  {
  }

  // ------------------------------------------------------- answers and readings

  /** At query `t` the collector of this source gave this answer. */
  ghost predicate Answered(e: Setup, source: SourceId, t: nat, answer: bool)
  {
    exists k :: 0 <= k < |e.collectors| && e.collectors[k].id == source && e.collectors[k].ready(t) == answer
  }

  /** The task was queued by the first reading of the clock after its collector said
      that it was ready. */
  ghost predicate Queued(e: Setup, source: SourceId, at: Timestamp)
  {
    exists t: nat :: Answered(e, source, t, true) && at == e.clock(t + 1)
  }

  /** A visited indicator that its collector takes was offered to it when it was not
      ready, and the status has the next reading of the clock. */
  ghost predicate Turned(e: Setup, visited: set<Indicator>, target: Indicator, x: SourceStatus)
  {
    && x.indicator in visited
    && (exists k :: 0 <= k < |e.collectors| && e.collectors[k].id == x.source && Takes(e.collectors[k], x.indicator, target))
    && exists t: nat :: Answered(e, x.source, t, false) && x.startedAt == x.finishedAt == e.clock(t + 1)
  }

  /** A run cut by the deadline lasted from when it was queued to the deadline. */
  ghost predicate Cut(e: Setup, x: SourceStatus)
  {
    Queued(e, x.source, x.startedAt) && exists u: nat :: x.finishedAt == Later(x.startedAt, e.clock(u))
  }

  ghost predicate Honest(e: Setup, visited: set<Indicator>, target: Indicator, x: SourceStatus)
  {
    && (x.outcome.Unavailable? ==> Turned(e, visited, target, x))
    && (x.outcome == TimedOut(InvestigationLimit) ==> Cut(e, x))
  }

  ghost predicate AllHonest(e: Setup, s: State)
  {
    && (forall id :: id in s.pending ==> Queued(e, s.pending[id].source, s.pending[id].queuedAt))
    && (forall x :: x in s.store.sources ==> Honest(e, s.visited, s.store.target, x))
  }

  lemma OfferHonest(e: Setup, s: State, ind: Indicator, depth: U8, origin: Origin, k: nat)
    requires AllHonest(e, s) && k < |e.collectors| && ind in s.visited && (depth == 0 <==> ind == s.store.target)
    ensures var r := Offer(e, s, e.collectors[k], ind, depth, origin);
            AllHonest(e, r) && r.visited == s.visited && r.store.target == s.store.target
  {
    var c := e.collectors[k];
    var r := Offer(e, s, c, ind, depth, origin);
    if Applies(c, ind, depth) {
      assert Answered(e, c.id, s.ticks, c.ready(s.ticks));
      if c.ready(s.ticks) {
        assert Queued(e, c.id, e.clock(s.ticks + 1));
      } else if c.id !in s.considered {
        var now := e.clock(s.ticks + 1);
        assert Turned(e, s.visited, s.store.target, NewStatus(c.id, ind, Unavailable, now, now));
      }
    }
  }

  lemma {:induction false} ScheduleHonest(e: Setup, s: State, ind: Indicator, depth: U8, origin: Origin, k: nat)
    requires AllHonest(e, s) && k <= |e.collectors| && ind in s.visited && (depth == 0 <==> ind == s.store.target)
    ensures var r := Schedule(e, s, ind, depth, origin, k);
            AllHonest(e, r) && r.visited == s.visited && r.store.target == s.store.target
    decreases |e.collectors| - k
  {
    if k < |e.collectors| {
      OfferHonest(e, s, ind, depth, origin, k);
      ScheduleHonest(e, Offer(e, s, e.collectors[k], ind, depth, origin), ind, depth, origin, k + 1);
    }
  }

  lemma MoreVisited(e: Setup, s: State, r: State)
    requires AllHonest(e, s) && r.pending == s.pending && r.store.sources == s.store.sources
    requires s.visited <= r.visited && r.store.target == s.store.target
    ensures AllHonest(e, r)
  {
    forall x | x in r.store.sources ensures Honest(e, r.visited, r.store.target, x) {
      assert Honest(e, s.visited, s.store.target, x);
    }
  }

  lemma {:induction false} FollowAllHonest(e: Setup, s: State, pivots: seq<Indicator>, depth: U8, i: nat)
    requires AllHonest(e, s) && s.store.target in s.visited && depth > 0
    ensures var r := FollowAll(e, s, pivots, depth, FromRun(i));
            AllHonest(e, r) && s.store.target in r.visited && r.store.target == s.store.target
    decreases |pivots|
  {
    if pivots != [] {
      if Enters(e, s, pivots[0], depth) {
        MoreVisited(e, s, Entered(s, pivots[0]));
        ScheduleHonest(e, Entered(s, pivots[0]), pivots[0], depth, FromRun(i), 0);
      }
      FollowAllHonest(e, Follow(e, s, pivots[0], depth, FromRun(i)), pivots[1..], depth, i);
    }
  }

  lemma CutOffHonest(e: Setup, s: State, id: nat, u: nat)
    requires AllHonest(e, s)
    ensures AllHonest(e, CutOff(s, id, e.clock(u)))
  {
    if id in s.pending {
      var task := s.pending[id];
      var x := NewStatus(task.source, task.indicator, TimedOut(InvestigationLimit), task.queuedAt, e.clock(u));
      assert x.finishedAt == Later(x.startedAt, e.clock(u));
      assert Honest(e, s.visited, s.store.target, x);
    }
  }

  lemma {:induction false} DrainHonest(e: Setup, s: State, order: seq<nat>, u: nat)
    requires AllHonest(e, s)
    ensures AllHonest(e, Drain(s, order, e.clock(u)))
    decreases |order|
  {
    if order != [] {
      CutOffHonest(e, s, order[0], u);
      DrainHonest(e, CutOff(s, order[0], e.clock(u)), order[1..], u);
    }
  }

  /** A result, an error and a crash are neither an unavailable source nor cut by the
      deadline. */
  lemma SettledHonest(e: Setup, s: State, x: SourceStatus)
    requires AllHonest(e, s) && !x.outcome.Unavailable? && x.outcome != TimedOut(InvestigationLimit)
    ensures AllHonest(e, Settled(s, x))
  {
  }

  lemma CollectedHonest(e: Setup, s: State, id: nat, c: Collection)
    requires AllHonest(e, s) && s.store.target in s.visited && id in s.pending && Sound(s.store) && WellFormedAll(c)
    ensures AllHonest(e, Followed(e, s, id, c))
  {
    MergeFrame(s.store, c);
    MoreVisited(e, Taken(s, id), Handed(s, id, c));
    FollowAllHonest(e, Handed(s, id, c), Examined(c.pivots), Deeper(s.pending[id].depth), id);
  }

  lemma StepHonest(e: Setup, s: State, event: Event)
    requires AllHonest(e, s) && s.store.target in s.visited && Sound(s.store) && Enabled(s, event)
    ensures AllHonest(e, Step(e, s, event))
  {
    match event
    case Completed(id, end, from, to) =>
      CompleteParts(e, s, id, end, from, to);
      OutcomeExactly(end);
      var x := RunStatus(s, id, end, from, to);
      if end.Collected? {
        CollectedHonest(e, s, id, end.collection);
        SettledHonest(e, Followed(e, s, id, end.collection), x);
      } else {
        SettledHonest(e, Taken(s, id), x);
      }
    case Crashed(id) =>
    case Deadline(order) => DrainHonest(e, Struck(s), order, s.ticks);
  }

  lemma {:induction false} PlayHonest(e: Setup, s: State, events: seq<Event>)
    requires AllHonest(e, s) && Resting(e, s) && Possible(e, s, events)
    ensures AllHonest(e, Play(e, s, events))
    decreases |events|
  {
    if events != [] {
      StepHonest(e, s, events[0]);
      StepProgress(e, s, events[0]);
      PlayHonest(e, Step(e, s, events[0]), events[1..]);
    }
  }

  lemma ReachedHonest(e: Setup, store: Store, events: seq<Event>)
    requires Run(e, store, events)
    ensures AllHonest(e, Reached(e, store, events))
  {
    BeginRuns(e, store);
    BeginSources(e, store);
    ScheduleHonest(e, Blank(store), store.target, 0, FromTarget, 0);
    PlayHonest(e, Begin(e, store), events);
  }

  // -------------------------------------------------------------- the report

  /** The statuses added for the sources that were never considered, in the order of
      registration. */
  function Missing(e: Setup, target: Indicator, considered: set<SourceId>, now: Timestamp, k: nat): (r: seq<SourceStatus>)
    requires k <= |e.collectors|
    decreases |e.collectors| - k
  {
    if k == |e.collectors| then []
    else
      (if e.collectors[k].id in considered then []
       else [SourceStatus(e.collectors[k].id, target, Unsupported, now, now)])
      + Missing(e, target, considered, now, k + 1)
  }

  lemma {:induction false} UnsupportedAdded(e: Setup, s: Store, considered: set<SourceId>, now: Timestamp, k: nat)
    requires k <= |e.collectors|
    ensures RecordUnsupported(e, s, considered, now, k) == s.(sources := s.sources + Missing(e, s.target, considered, now, k))
    decreases |e.collectors| - k
  {
    if k < |e.collectors| {
      var c := e.collectors[k];
      var next := if c.id in considered then s else WithSource(s, NewStatus(c.id, s.target, Unsupported, now, now));
      UnsupportedAdded(e, next, considered, now, k + 1);
      var later := Missing(e, s.target, considered, now, k + 1);
      assert s.sources + [NewStatus(c.id, s.target, Unsupported, now, now)] + later
          == s.sources + ([NewStatus(c.id, s.target, Unsupported, now, now)] + later);
      assert s.sources + later == s.sources + ([] + later);
    }
  }

  lemma StartKept(e: Setup, store: Store, events: seq<Event>)
    requires Run(e, store, events)
    ensures var s := Reached(e, store, events).store; s.target == store.target && s.startedAt == store.startedAt
  {
    BeginHoldsNothing(e, store);
    PlayRecords(e, Begin(e, store), events, Edge(ResolvesTo, IndicatorEntity(store.target), IndicatorEntity(store.target)));
  }

  /** A finished investigation says what its sources answered: an unavailable status
      stands for a visited indicator that the collector takes and an answer that it was
      not ready; a run cut by the deadline lasted from its queueing to the deadline; the
      sources never considered follow, about the target, at the time the loop ended. The
      investigation ends by the reading after that one, or at its start if the clock
      went back before it. */
  lemma StatusesExplained(e: Setup, store: Store, events: seq<Event>)
    requires Ended(e, store, events)
    ensures var s, r := Reached(e, store, events), Report(e, store, events).store;
      && (forall x :: x in r.sources ==> Honest(e, s.visited, store.target, x))
      && r.sources == s.store.sources + Missing(e, store.target, s.considered, Later(e.clock(s.ticks), store.startedAt), 0)
      && r.finishedAt == Some(Later(e.clock(s.ticks + 1), store.startedAt))
  {
    var s := Reached(e, store, events);
    ReachedRests(e, store, events);
    ReachedHonest(e, store, events);
    StartKept(e, store, events);
    UnsupportedAdded(e, s.store, s.considered, Later(e.clock(s.ticks), s.store.startedAt), 0);
    NeverTurned(e, store.target, s.visited, s.considered, Later(e.clock(s.ticks), s.store.startedAt), 0);
  }

  lemma {:induction false} NeverTurned(e: Setup, target: Indicator, visited: set<Indicator>, considered: set<SourceId>, now: Timestamp, k: nat)
    requires k <= |e.collectors|
    ensures forall x :: x in Missing(e, target, considered, now, k) ==> Honest(e, visited, target, x)
    decreases |e.collectors| - k
  {
    if k < |e.collectors| { NeverTurned(e, target, visited, considered, now, k + 1); }
  }
}
