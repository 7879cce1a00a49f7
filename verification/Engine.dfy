/** The engine itself: registration, and the run that updates its tables in place
    while tasks end in any order (crates/collectors/src/engine/mod.rs). */
module Engine {
  import opened Results
  import opened Model
  import opened Investigation
  import opened EngineSpec
  import opened EngineInvariants
  import opened EngineSteps
  import opened EngineTheorems
  import opened EngineReport

  datatype EngineError = DuplicateSource(id: SourceId)

  class Registry {
    var collectors: seq<Collector>

    constructor ()
      ensures collectors == []
    {
      collectors := [];
    }

    /** A second collector with the same identifier is refused and changes
        nothing, so identifiers stay distinct. */
    method Register(c: Collector) returns (r: Result<(), EngineError>)
      requires DistinctIds(collectors)
      modifies this
      ensures DistinctIds(collectors)
      ensures r.Err? <==> exists i :: 0 <= i < |old(collectors)| && old(collectors)[i].id == c.id
      ensures r.Err? ==> r.error == DuplicateSource(c.id)
      ensures collectors == old(collectors) + (if r.Ok? then [c] else [])
    {
      for i := 0 to |collectors|
        invariant collectors == old(collectors)
        invariant forall j :: 0 <= j < i ==> collectors[j].id != c.id
      {
        if collectors[i].id == c.id { return Err(DuplicateSource(c.id)); }
      }
      collectors := collectors + [c];
      r := Ok(());
    }
  }

  /** One investigation while it runs. `tasks` are the live tasks of the runtime,
      `pending` what the engine knows about them; `ticks` counts the questions
      asked to the clock and to collectors. */
  class Run {
    const setup: Setup
    const investigation: Aggregate
    var tasks: set<nat>
    var nextTask: nat
    var pending: map<nat, Task>
    var visited: set<Indicator>
    var considered: set<SourceId>
    var dropped: set<Indicator>
    var overflow: nat
    var sourceRuns: nat
    var pivotsFollowed: nat
    var deadlineExceeded: bool
    var ticks: nat
    ghost var launches: seq<Launch>

    ghost function View(): (s: State)
      reads this, investigation
    {
      State(pending, visited, considered, dropped, overflow, sourceRuns, pivotsFollowed, deadlineExceeded,
            investigation.View(), ticks, launches)
    }

    /** Live tasks are exactly the tracked ones, and task identifiers are fresh. */
    ghost predicate Tracked()
      reads this
    {
      tasks == pending.Keys && nextTask == |launches| && forall id :: id in pending ==> id < nextTask
    }

    constructor (setup: Setup, investigation: Aggregate)
      ensures this.setup == setup && this.investigation == investigation
      ensures View() == Blank(investigation.View()).(visited := {}) && Tracked()
    {
      this.setup := setup;
      this.investigation := investigation;
      tasks, nextTask, pending, visited, considered, dropped := {}, 0, map[], {}, {}, {};
      overflow, sourceRuns, pivotsFollowed, deadlineExceeded, ticks, launches := 0, 0, 0, false, 0, [];
    }

    method Now() returns (t: Timestamp)
      modifies this`ticks
      ensures ticks == old(ticks) + 1 && t == setup.clock(old(ticks))
    {
      t := setup.clock(ticks);
      ticks := ticks + 1;
    }

    method Availability(c: Collector) returns (ready: bool)
      modifies this`ticks
      ensures ticks == old(ticks) + 1 && ready == c.ready(old(ticks))
    {
      ready := c.ready(ticks);
      ticks := ticks + 1;
    }

    method SpawnTask(c: Collector, indicator: Indicator, depth: U8, ghost origin: Origin)
      requires Tracked()
      modifies this
      ensures Tracked()
      ensures View() == Spawn(setup, old(View()), c.id, indicator, depth, origin)
    {
      ghost var was := View();
      ghost var hops := HopsFrom(was, origin);
      var id := nextTask;
      tasks := tasks + {id};
      nextTask := nextTask + 1;
      sourceRuns := sourceRuns + 1;
      pending := pending[id := Task(c.id, indicator, depth, setup.clock(ticks))];
      ticks := ticks + 1;
      launches := launches + [Launch(c.id, indicator, depth, if origin.FromRun? then Some(origin.run) else None, hops)];
      assert View() == was.(pending := pending, ticks := ticks, sourceRuns := sourceRuns, launches := launches);
    }

    method OfferTo(c: Collector, indicator: Indicator, depth: U8, ghost origin: Origin)
      requires Tracked()
      modifies this, investigation
      ensures Tracked()
      ensures View() == Offer(setup, old(View()), c, indicator, depth, origin)
    {
      if !c.supports(indicator) { return; }
      if depth > 0 && !c.onPivots { return; }
      var ready := Availability(c);
      if !ready {
        if c.id !in considered {
          considered := considered + {c.id};
          var now := Now();
          investigation.RecordSource(NewStatus(c.id, indicator, Unavailable, now, now));
        }
        return;
      }
      considered := considered + {c.id};
      SpawnTask(c, indicator, depth, origin);
    }

    /** Starts every applicable collector for an indicator. */
    method ScheduleFor(indicator: Indicator, depth: U8, ghost origin: Origin)
      requires Tracked()
      modifies this, investigation
      ensures Tracked()
      ensures View() == Schedule(setup, old(View()), indicator, depth, origin, 0)
    {
      for k := 0 to |setup.collectors|
        invariant Tracked()
        invariant Schedule(setup, View(), indicator, depth, origin, k)
               == Schedule(setup, old(View()), indicator, depth, origin, 0)
      {
        OfferTo(setup.collectors[k], indicator, depth, origin);
      }
    }

    /** Follows one pivot if it is within limits and investigable. */
    method FollowPivot(pivot: Indicator, depth: U8, ghost origin: Origin)
      requires Tracked() && visited != {}
      modifies this, investigation
      ensures Tracked() && old(visited) <= visited
      ensures View() == Follow(setup, old(View()), pivot, depth, origin)
    {
      if pivot in visited || pivot in dropped { return; }
      var pivotsSoFar := |visited| - 1;
      if depth > setup.limits.maxDepth || pivotsSoFar >= setup.limits.maxEntities || !setup.investigable(pivot) {
        dropped := dropped + {pivot};
        return;
      }
      EnterPivot(pivot, depth, origin);
    }

    /** Marks a pivot as visited and starts its collectors. */
    method EnterPivot(pivot: Indicator, depth: U8, ghost origin: Origin)
      requires Tracked()
      modifies this, investigation
      ensures Tracked() && old(visited) <= visited
      ensures View() == Schedule(setup, Entered(old(View()), pivot), pivot, depth, origin, 0)
    {
      visited := visited + {pivot};
      pivotsFollowed := pivotsFollowed + 1;
      ScheduleFrame(setup, View(), pivot, depth, origin, 0);
      ScheduleFor(pivot, depth, origin);
    }

    /** The pivots of one collection: at most so many are examined, the rest are
        only counted. */
    method FollowPivots(pivots: seq<Indicator>, parentDepth: U8, ghost origin: Origin)
      requires Tracked() && visited != {}
      modifies this, investigation
      ensures Tracked()
      ensures View() == ConsiderPivots(setup, old(View()), pivots, parentDepth, origin)
    {
      var depth: U8 := if parentDepth == 255 then 255 else parentDepth + 1;
      if |pivots| > MAX_PIVOT_CANDIDATES {
        overflow := overflow + (|pivots| - MAX_PIVOT_CANDIDATES);
      }
      var examined := Examined(pivots);
      ghost var start := View();
      for i := 0 to |examined|
        invariant Tracked() && visited != {}
        invariant FollowAll(setup, View(), examined[i..], depth, origin)
               == FollowAll(setup, start, examined, depth, origin)
      {
        assert examined[i..][0] == examined[i] && examined[i..][1..] == examined[i + 1..];
        FollowPivot(examined[i], depth, origin);
      }
    }

    /** Hands what a collector returned to the investigation, which refuses what
        cites evidence it does not hold. */
    method Merge(c: Collection)
      modifies investigation
      ensures investigation.View() == MergeCollection(old(investigation.View()), c)
    {
      for i := 0 to |c.observations|
        invariant investigation.View() == AddObservations(old(investigation.View()), c.observations[..i])
      {
        var _ := investigation.AddObservation(c.observations[i]);
        assert c.observations[..i + 1] == c.observations[..i] + [c.observations[i]];
      }
      assert c.observations[..|c.observations|] == c.observations;
      ghost var s1 := investigation.View();
      for i := 0 to |c.relationships|
        invariant AddRelationships(investigation.View(), c.relationships[i..]) == AddRelationships(s1, c.relationships)
      {
        var _ := investigation.AddRelationship(c.relationships[i]);
      }
      ghost var s2 := investigation.View();
      for i := 0 to |c.findings|
        invariant AddFindings(investigation.View(), c.findings[i..]) == AddFindings(s2, c.findings)
      {
        var _ := investigation.AddFinding(c.findings[i]);
      }
    }

    /** A joined task finished. */
    method CompleteTask(id: nat, end: TaskEnd, startedAt: Timestamp, finishedAt: Timestamp)
      requires Tracked() && visited != {} && id in tasks
      modifies this, investigation
      ensures Tracked()
      ensures View() == EngineSpec.Complete(setup, old(View()), id, end, startedAt, finishedAt)
    {
      tasks := tasks - {id};
      if id !in pending { return; }
      var task := pending[id];
      pending := pending - {id};
      if end.Collected? {
        Merge(end.collection);
        FollowPivots(end.collection.pivots, task.depth, FromRun(id));
      }
      var outcome := match end
        case Collected(c) =>
          if c.failures == [] then Succeeded(|c.observations|) else Partial(|c.observations|, c.failures)
        case BudgetRefused(limit) => BudgetExhausted(limit)
        case Errored(text) => Failed(text)
        case SourceTimeout => TimedOut(SourceLimit);
      investigation.RecordSource(NewStatus(task.source, task.indicator, outcome, startedAt, finishedAt));
    }

    /** The task panicked; its run gets a status that says so. */
    method CrashTask(id: nat)
      requires Tracked() && id in tasks
      modifies this, investigation
      ensures Tracked()
      ensures View() == Crash(setup, old(View()), id)
    {
      tasks := tasks - {id};
      if id !in pending { return; }
      var task := pending[id];
      pending := pending - {id};
      var now := Now();
      investigation.RecordSource(NewStatus(task.source, task.indicator, Failed(CRASHED), task.queuedAt, now));
    }

    /** Records one unfinished task as cut by the deadline. */
    method CutOffTask(id: nat, now: Timestamp)
      requires id in pending
      modifies this`pending, investigation
      ensures View() == CutOff(old(View()), id, now) && pending == old(pending) - {id}
    {
      var task := pending[id];
      pending := pending - {id};
      investigation.RecordSource(NewStatus(task.source, task.indicator, TimedOut(InvestigationLimit), task.queuedAt, now));
    }

    /** The deadline: aborts every live task and records it, in whatever order the
        table gives its entries. */
    method CancelRemaining() returns (ghost order: seq<nat>)
      requires Tracked()
      modifies this, investigation
      ensures Tracked() && forall id :: id in order <==> id in old(pending)
      ensures pending == map[]
      ensures View() == Cancel(setup, old(View()), order)
    {
      deadlineExceeded := true;
      tasks := {};
      var now := Now();
      ghost var start := View();
      order := [];
      while pending != map[]
        invariant nextTask == |launches| && tasks == {}
        invariant forall id :: id in pending ==> id < nextTask
        invariant forall id :: id in old(pending) <==> id in order || id in pending
        invariant View() == Drain(start, order, now)
        decreases |pending|
      {
        var id :| id in pending;
        DrainSnoc(start, order, id, now);
        SmallerMap(pending, id);
        CutOffTask(id, now);
        order := order + [id];
      }
    }

    /** Sources that never saw an indicator for them get one status. */
    method RecordUnsupportedSources()
      modifies this`ticks, investigation
      ensures ticks == old(ticks) + 1
      ensures investigation.View() == RecordUnsupported(setup, old(investigation.View()), considered,
                Later(setup.clock(old(ticks)), investigation.startedAt), 0)
    {
      var clock := Now();
      var now := Later(clock, investigation.startedAt);
      for k := 0 to |setup.collectors|
        invariant ticks == old(ticks) + 1
        invariant RecordUnsupported(setup, investigation.View(), considered, now, k)
               == RecordUnsupported(setup, old(investigation.View()), considered, now, 0)
      {
        var c := setup.collectors[k];
        if c.id !in considered {
          investigation.RecordSource(NewStatus(c.id, investigation.target, Unsupported, now, now));
        }
      }
    }

    /** One pass of the join loop while tasks are live: the deadline strikes, or
        some task is joined. */
    method JoinNext(turn: Turn) returns (ghost event: Event)
      requires Tracked() && visited != {} && tasks != {}
      requires turn.end.Collected? ==> WellFormedAll(turn.end.collection)
      modifies this, investigation
      ensures Tracked()
      ensures Enabled(old(View()), event) && View() == Step(setup, old(View()), event)
      ensures turn.deadline ==> pending == map[]
    {
      if turn.deadline {
        assert View().pending != map[];
        ghost var order := CancelRemaining();
        event := Deadline(order);
      } else {
        var id :| id in tasks;
        if turn.crashed {
          event := Crashed(id);
          CrashTask(id);
        } else {
          event := Completed(id, turn.end, turn.startedAt, turn.finishedAt);
          CompleteTask(id, turn.end, turn.startedAt, turn.finishedAt);
        }
      }
    }

    /** After the loop: account for the sources, take the figures, finish. */
    method CloseRun() returns (stats: RunStats)
      modifies this`ticks, investigation
      ensures EngineRun(investigation.View(), stats) == Close(setup, old(View()))
    {
      RecordUnsupportedSources();
      stats := RunStats(sourceRuns, pivotsFollowed, |dropped| + overflow, deadlineExceeded);
      var clock := Now();
      var _ := investigation.Finish(Later(clock, investigation.startedAt));
    }

    /** The whole run. Which task is joined next is arbitrary, and `turns` says how
        it ended and whether the deadline strikes first. The result is the report
        of the events that happened, with no task left. */
    method Execute(target: Indicator, turns: nat -> Turn) returns (stats: RunStats, ghost events: seq<Event>)
      requires View() == Blank(investigation.View()).(visited := {}) && Tracked()
      requires target == investigation.target && Ready(setup, investigation.View())
      requires forall n :: turns(n).end.Collected? ==> WellFormedAll(turns(n).end.collection)
      modifies this, investigation
      ensures tasks == {} && pending == map[]
      ensures Ended(setup, old(investigation.View()), events)
      ensures EngineRun(investigation.View(), stats) == Report(setup, old(investigation.View()), events)
    {
      ghost var store := investigation.View();
      visited := visited + {target};
      assert View() == Blank(store);
      ScheduleFor(target, 0, FromTarget);
      ghost var begun := View();
      events := [];
      var joins := 0;
      RunStarts(setup, store);
      while true
        invariant Tracked() && OnTrack(setup, store, events, View())
        decreases Measure(setup, View())
      {
        if tasks == {} { break; }
        ghost var before := View();
        TrackGives(setup, store, events, before);
        ghost var event := JoinNext(turns(joins));
        TrackStep(setup, store, events, before, event);
        events := events + [event];
        if turns(joins).deadline { break; }
        joins := joins + 1;
      }
      TrackGives(setup, store, events, View());
      assert pending.Keys == {} ==> pending == map[];
      stats := CloseRun();
    }
  }

  /** What happens at one join: the deadline, a crash, or a result. */
  datatype Turn = Turn(deadline: bool, crashed: bool, end: TaskEnd, startedAt: Timestamp, finishedAt: Timestamp)

  /** The state is the one these events lead to, and all invariants hold. */
  ghost predicate OnTrack(e: Setup, store: Store, events: seq<Event>, s: State)
  {
    EngineTheorems.Run(e, store, events) && s == Reached(e, store, events)
  }

  lemma RunStarts(e: Setup, store: Store)
    requires Ready(e, store)
    ensures OnTrack(e, store, [], Begin(e, store))
  {
  }

  lemma TrackGives(e: Setup, store: Store, events: seq<Event>, s: State)
    requires OnTrack(e, store, events, s)
    ensures s.visited != {}
    ensures s.pending == map[] ==> Ended(e, store, events)
  {
    ReachedRests(e, store, events);
  }

  lemma TrackStep(e: Setup, store: Store, events: seq<Event>, s: State, event: Event)
    requires OnTrack(e, store, events, s) && Enabled(s, event)
    ensures OnTrack(e, store, events + [event], Step(e, s, event))
    ensures Measure(e, Step(e, s, event)) < Measure(e, s)
  {
    ReachedRests(e, store, events);
    StepProgress(e, s, event);
    PossibleSnoc(e, Begin(e, store), events, event);
  }

  lemma SmallerMap(m: map<nat, Task>, id: nat)
    requires id in m
    ensures |m - {id}| < |m|
  {
    assert (m - {id}).Keys == m.Keys - {id};
    assert |m| == |m.Keys| && |m - {id}| == |(m - {id}).Keys|;
  }

  lemma {:induction false} DrainSnoc(s: State, order: seq<nat>, id: nat, now: Timestamp)
    ensures Drain(s, order + [id], now) == CutOff(Drain(s, order, now), id, now)
    decreases |order|
  {
    if order == [] {
      assert order + [id] == [id];
    } else {
      assert (order + [id])[1..] == order[1..] + [id];
      DrainSnoc(CutOff(s, order[0], now), order[1..], id, now);
    }
  }
}
