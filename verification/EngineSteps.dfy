/** Every join event keeps the invariants of the engine and lowers the measure of
    its loop. */
module EngineSteps {
  import opened Model
  import opened Investigation
  import opened EngineSpec
  import opened EngineInvariants

  /** What holds whenever the engine waits for the next task. */
  ghost predicate Resting(e: Setup, s: State)
  {
    RunsInOrder(e, s) && SourcesInOrder(e, s)
  }

  ghost predicate RunsInOrder(e: Setup, s: State)
  {
    DistinctIds(e.collectors) && Frontier(e, s) && Ledger(e, s) && Accounts(s, Open(s, {}))
  }

  ghost predicate SourcesInOrder(e: Setup, s: State)
  {
    Considered(e, s) && Covered(e, s, s.store.target, |e.collectors|) && Books(s, 0) && Bounds(e, s, 0, 0)
  }

  // -------------------------------------------------------------- the merge

  lemma {:induction false} AddRelationshipsFrame(s: Store, rels: seq<Relationship>)
    requires Sound(s) && forall i :: 0 <= i < |rels| ==> WellFormed(rels[i])
    ensures var r := AddRelationships(s, rels);
            Sound(r) && r == s.(relationships := r.relationships)
    decreases |rels|
  {
    if rels != [] {
      AddRelationshipSound(s, rels[0]);
      AddRelationshipsFrame(WithRelationship(s, rels[0]).0, rels[1..]);
    }
  }

  lemma {:induction false} AddFindingsFrame(s: Store, fs: seq<Finding>)
    requires Sound(s)
    ensures var r := AddFindings(s, fs); Sound(r) && r == s.(findings := r.findings)
    decreases |fs|
  {
    if fs != [] {
      AddFindingSound(s, fs[0]);
      AddFindingsFrame(WithFinding(s, fs[0]).0, fs[1..]);
    }
  }

  lemma MoreObservationsSound(s: Store, os: seq<Observation>)
    requires Sound(s)
    ensures Sound(AddObservations(s, os))
  {
    var r := AddObservations(s, os);
    forall id | Known(s, id) ensures Known(r, id) {
      var i :| 0 <= i < |s.observations| && s.observations[i].id == id;
      assert r.observations[i].id == id;
    }
  }

  /** Whatever a collector returned, the merged store is sound; only its
      observations, relationships and findings changed, and every observation is
      there. */
  lemma MergeFrame(s: Store, c: Collection)
    requires Sound(s) && forall i :: 0 <= i < |c.relationships| ==> WellFormed(c.relationships[i])
    ensures var r := MergeCollection(s, c);
      && Sound(r) && r.observations == s.observations + c.observations && r.sources == s.sources
      && r.target == s.target && r.startedAt == s.startedAt && r.finishedAt == s.finishedAt
  {
    MoreObservationsSound(s, c.observations);
    var s1 := AddObservations(s, c.observations);
    AddRelationshipsFrame(s1, c.relationships);
    AddFindingsFrame(AddRelationships(s1, c.relationships), c.findings);
  }

  // ---------------------------------------------------------- retiring a run

  ghost predicate StatusFor(s: State, id: nat, x: SourceStatus)
  {
    && id < |s.launches| && x.outcome.IsRun()
    && x.source == s.launches[id].source && x.indicator == s.launches[id].indicator
    && x.startedAt <= x.finishedAt
  }

  function Brings(x: SourceStatus): (n: nat)
  {
    match x.outcome case Succeeded(n) => n case Partial(n, _) => n case _ => 0
  }

  lemma TakenSize(s: State, id: nat)
    requires id in s.pending
    ensures |Taken(s, id).pending| == |s.pending| - 1
    ensures Open(Taken(s, id), {id}) == Open(s, {})
    ensures id !in Taken(s, id).pending
  {
    var r := Taken(s, id).pending;
    assert r.Keys == s.pending.Keys - {id};
    assert |r| == |r.Keys| && |s.pending| == |s.pending.Keys|;
  }

  lemma TakenLedger(e: Setup, s: State, id: nat)
    requires Frontier(e, s) && Ledger(e, s) && id in s.pending
    ensures Frontier(e, Taken(s, id)) && Ledger(e, Taken(s, id))
  {
    SameHistory(e, s, Taken(s, id));
  }

  lemma TakenAccounts(s: State, id: nat)
    requires Accounts(s, Open(s, {})) && id in s.pending
    ensures Accounts(Taken(s, id), Open(Taken(s, id), {id}))
  {
    TakenSize(s, id);
    SameAccounts(s, Taken(s, id), Open(s, {}));
  }

  lemma SettledLedger(e: Setup, s: State, x: SourceStatus)
    requires Frontier(e, s) && Ledger(e, s)
    ensures Frontier(e, Settled(s, x)) && Ledger(e, Settled(s, x))
  {
    SameHistory(e, s, Settled(s, x));
  }

  lemma SettledAccounts(e: Setup, s: State, id: nat, x: SourceStatus)
    requires Ledger(e, s) && Accounts(s, Open(s, {id})) && id !in s.pending && StatusFor(s, id, x)
    ensures Accounts(Settled(s, x), Open(Settled(s, x), {}))
  {
    var r := Settled(s, x);
    forall i | 0 <= i < |r.launches|
      ensures RunStatuses(r.store.sources, r.launches[i].source, r.launches[i].indicator)
           == (if i in Open(r, {}) then 0 else 1)
    {
      AppendStatus(s.store.sources, x, s.launches[i].source, s.launches[i].indicator);
    }
    forall y | y in r.store.sources && y.outcome.IsRun() ensures Launched(r, y.source, y.indicator) {
      if y in s.store.sources {
        assert Launched(s, y.source, y.indicator);
        var i :| 0 <= i < |s.launches| && s.launches[i].source == y.source && s.launches[i].indicator == y.indicator;
        assert r.launches[i] == s.launches[i];
      } else {
        assert y == x && r.launches[id] == s.launches[id];
      }
    }
  }

  lemma SettledConsidered(e: Setup, s: State, id: nat, x: SourceStatus)
    requires Considered(e, s) && StatusFor(s, id, x)
    ensures Considered(e, Settled(s, x))
  {
    var r := Settled(s, x);
    assert LaunchedSource(s, x.source);
    forall src
      ensures LaunchedSource(r, src) <==> LaunchedSource(s, src)
      ensures UnavailableStatuses(r.store.sources, src) == UnavailableStatuses(s.store.sources, src)
      ensures StatusesOf(r.store.sources, src) == StatusesOf(s.store.sources, src) + (if src == x.source then 1 else 0)
    {
      AppendStatus(s.store.sources, x, src, x.indicator);
    }
    forall k | 0 <= k < |e.collectors| && e.collectors[k].id in r.considered
      ensures exists v :: v in r.visited && Takes(e.collectors[k], v, r.store.target)
    {
      var v :| v in s.visited && Takes(e.collectors[k], v, s.store.target);
      assert v in r.visited;
    }
  }

  lemma SettledBooks(s: State, x: SourceStatus, carried: nat)
    requires Books(s, carried) && x.startedAt <= x.finishedAt && carried == Brings(x)
    ensures Books(Settled(s, x), 0)
  {
    DeliveredSnoc(s.store.sources, x);
    StatusKeepsSound(s.store, x);
  }

  /** A run ends without handing anything over. */
  function Retired(s: State, id: nat, x: SourceStatus): (r: State)
  {
    Settled(Taken(s, id), x)
  }

  lemma RetiredLedger(e: Setup, s: State, id: nat, x: SourceStatus)
    requires Frontier(e, s) && Ledger(e, s) && Accounts(s, Open(s, {})) && id in s.pending && StatusFor(s, id, x)
    ensures var r := Retired(s, id, x); Frontier(e, r) && Ledger(e, r) && Accounts(r, Open(r, {}))
  {
    TakenLedger(e, s, id);
    TakenAccounts(s, id);
    TakenSize(s, id);
    SettledLedger(e, Taken(s, id), x);
    SettledAccounts(e, Taken(s, id), id, x);
  }

  lemma RetiredConsidered(e: Setup, s: State, id: nat, x: SourceStatus)
    requires Considered(e, s) && StatusFor(s, id, x)
    ensures Considered(e, Retired(s, id, x))
  {
    SameConsidered(e, s, Taken(s, id));
    SettledConsidered(e, Taken(s, id), id, x);
  }

  lemma RetiredRest(e: Setup, s: State, id: nat, x: SourceStatus)
    requires Books(s, 0) && Bounds(e, s, 0, 0) && id in s.pending && x.startedAt <= x.finishedAt && Brings(x) == 0
    requires Covered(e, s, s.store.target, |e.collectors|)
    ensures var r := Retired(s, id, x);
      && Books(r, 0) && Bounds(e, r, 0, 0) && Covered(e, r, r.store.target, |e.collectors|)
      && |r.pending| == |s.pending| - 1 && r.visited == s.visited && r.launches == s.launches
  {
    SettledBooks(Taken(s, id), x, 0);
    TakenSize(s, id);
  }

  lemma RetiredSources(e: Setup, s: State, id: nat, x: SourceStatus)
    requires SourcesInOrder(e, s) && id in s.pending && StatusFor(s, id, x) && Brings(x) == 0
    ensures SourcesInOrder(e, Retired(s, id, x))
  {
    RetiredConsidered(e, s, id, x);
    RetiredRest(e, s, id, x);
  }

  lemma RetiredRuns(e: Setup, s: State, id: nat, x: SourceStatus)
    requires RunsInOrder(e, s) && id in s.pending && StatusFor(s, id, x)
    ensures RunsInOrder(e, Retired(s, id, x))
  {
    RetiredLedger(e, s, id, x);
  }

  lemma RetiredRests(e: Setup, s: State, id: nat, x: SourceStatus)
    requires Resting(e, s) && id in s.pending && StatusFor(s, id, x) && Brings(x) == 0
    ensures Resting(e, Retired(s, id, x))
    ensures Measure(e, Retired(s, id, x)) == Measure(e, s) - 1
  {
    RetiredRuns(e, s, id, x);
    RetiredSources(e, s, id, x);
    RetiredMeasure(e, s, id, x);
  }

  lemma RetiredMeasure(e: Setup, s: State, id: nat, x: SourceStatus)
    requires id in s.pending
    ensures Measure(e, Retired(s, id, x)) == Measure(e, s) - 1
  {
    TakenSize(s, id);
  }

  /** The clock, the deadline flag and the overflow count do not matter here. */
  lemma TickRests(e: Setup, s: State, r: State)
    requires Resting(e, s)
    requires r == s.(ticks := r.ticks, deadlineExceeded := r.deadlineExceeded, overflow := r.overflow)
    ensures Resting(e, r) && Measure(e, r) == Measure(e, s)
  {
    TickRuns(e, s, r);
    TickSources(e, s, r);
  }

  lemma TickRuns(e: Setup, s: State, r: State)
    requires RunsInOrder(e, s)
    requires r == s.(ticks := r.ticks, deadlineExceeded := r.deadlineExceeded, overflow := r.overflow)
    ensures RunsInOrder(e, r)
  {
    SameHistory(e, s, r);
    SameAccounts(s, r, Open(s, {}));
  }

  lemma TickSources(e: Setup, s: State, r: State)
    requires SourcesInOrder(e, s)
    requires r == s.(ticks := r.ticks, deadlineExceeded := r.deadlineExceeded, overflow := r.overflow)
    ensures SourcesInOrder(e, r)
  {
    SameConsidered(e, s, r);
  }

  lemma PendingMatches(e: Setup, s: State, id: nat, outcome: SourceOutcome, from: Timestamp, to: Timestamp)
    requires Ledger(e, s) && id in s.pending && outcome.IsRun()
    ensures StatusFor(s, id, NewStatus(s.pending[id].source, s.pending[id].indicator, outcome, from, to))
  {
  }

  lemma CrashRests(e: Setup, s: State, id: nat)
    requires Resting(e, s) && id in s.pending
    ensures Resting(e, Crash(e, s, id)) && Measure(e, Crash(e, s, id)) == Measure(e, s) - 1
    ensures s.launches <= Crash(e, s, id).launches
  {
    var task := s.pending[id];
    var x := NewStatus(task.source, task.indicator, Failed(CRASHED), task.queuedAt, e.clock(s.ticks));
    PendingMatches(e, s, id, Failed(CRASHED), task.queuedAt, e.clock(s.ticks));
    RetiredRests(e, s, id, x);
    TickRests(e, Retired(s, id, x), Crash(e, s, id));
  }

  lemma CutOffRests(e: Setup, s: State, id: nat, now: Timestamp)
    requires Resting(e, s)
    ensures var r := CutOff(s, id, now);
      && Resting(e, r) && Measure(e, r) == Measure(e, s) - (if id in s.pending then 1 else 0)
  {
    if id in s.pending {
      var task := s.pending[id];
      PendingMatches(e, s, id, TimedOut(InvestigationLimit), task.queuedAt, now);
      RetiredRests(e, s, id, NewStatus(task.source, task.indicator, TimedOut(InvestigationLimit), task.queuedAt, now));
    }
  }

  lemma {:induction false} DrainRests(e: Setup, s: State, order: seq<nat>, now: Timestamp)
    requires Resting(e, s)
    ensures Resting(e, Drain(s, order, now)) && Measure(e, Drain(s, order, now)) <= Measure(e, s)
    ensures order != [] && order[0] in s.pending ==> Measure(e, Drain(s, order, now)) < Measure(e, s)
    decreases |order|
  {
    if order != [] {
      CutOffRests(e, s, order[0], now);
      DrainRests(e, CutOff(s, order[0], now), order[1..], now);
    }
  }

  lemma {:induction false} DrainEmpties(s: State, order: seq<nat>, now: Timestamp)
    ensures var r := Drain(s, order, now);
      && r.launches == s.launches && r.pending.Keys == s.pending.Keys - (set id | id in order)
    decreases |order|
  {
    if order != [] {
      assert order == [order[0]] + order[1..];
      DrainEmpties(CutOff(s, order[0], now), order[1..], now);
    }
  }

  lemma DeadlineOrder(s: State, order: seq<nat>)
    requires Enabled(s, Deadline(order))
    ensures order != [] && order[0] in s.pending
  {
    var id :| id in s.pending;
    assert id in order;
  }

  lemma CancelRests(e: Setup, s: State, order: seq<nat>)
    requires Resting(e, s) && order != [] && order[0] in s.pending
    ensures Resting(e, Cancel(e, s, order)) && Measure(e, Cancel(e, s, order)) < Measure(e, s)
  {
    TickRests(e, s, Struck(s));
    DrainRests(e, Struck(s), order, e.clock(s.ticks));
  }

  /** The deadline leaves no run pending and starts none. */
  lemma CancelEmpties(e: Setup, s: State, order: seq<nat>)
    requires Enabled(s, Deadline(order))
    ensures var r := Cancel(e, s, order); r.pending == map[] && r.launches == s.launches
  {
    DrainEmpties(Struck(s), order, e.clock(s.ticks));
    assert s.pending.Keys == set id | id in order;
  }

  // ------------------------------------------------------------- collecting

  /** The state in which the pivots of run `id` are considered. */
  function Handed(s: State, id: nat, c: Collection): (r: State)
  {
    var s1 := Taken(s, id);
    var excess := |c.pivots| - |Examined(c.pivots)|;
    s1.(store := MergeCollection(s1.store, c), overflow := s1.overflow + excess)
  }

  ghost predicate WellFormedAll(c: Collection)
  {
    forall i :: 0 <= i < |c.relationships| ==> WellFormed(c.relationships[i])
  }

  lemma HandedRuns(e: Setup, s: State, id: nat, c: Collection)
    requires RunsInOrder(e, s) && id in s.pending && Sound(s.store) && WellFormedAll(c)
    ensures var r := Handed(s, id, c);
      && Frontier(e, r) && Ledger(e, r) && Accounts(r, Open(r, {id})) && HeldOk(r, {id})
      && Following(e, r, Deeper(s.pending[id].depth), id)
      && Open(r, {id}) == Open(s, {}) && id !in r.pending && |r.pending| == |s.pending| - 1
      && r.visited == s.visited
  {
    var r := Handed(s, id, c);
    MergeFrame(s.store, c);
    TakenSize(s, id);
    assert Open(r, {id}) == Open(Taken(s, id), {id});
    SameHistory(e, s, r);
    SameAccounts(s, r, Open(s, {}));
  }

  lemma HandedSources(e: Setup, s: State, id: nat, c: Collection)
    requires SourcesInOrder(e, s) && id in s.pending && WellFormedAll(c)
    ensures var r := Handed(s, id, c);
      && Considered(e, r) && Covered(e, r, r.store.target, |e.collectors|) && Books(r, |c.observations|)
      && Bounds(e, r, 0, MAX_PIVOT_CANDIDATES)
  {
    var r := Handed(s, id, c);
    MergeFrame(s.store, c);
    TakenSize(s, id);
    SameConsidered(e, s, r);
  }

  /** The state in which the status of run `id` is recorded. */
  function Followed(e: Setup, s: State, id: nat, c: Collection): (r: State)
    requires id in s.pending
  {
    FollowAll(e, Handed(s, id, c), Examined(c.pivots), Deeper(s.pending[id].depth), FromRun(id))
  }

  lemma FollowedLedger(e: Setup, s: State, id: nat, c: Collection)
    requires RunsInOrder(e, s) && id in s.pending && Sound(s.store) && WellFormedAll(c)
    ensures var r := Followed(e, s, id, c);
            Frontier(e, r) && Ledger(e, r) && s.launches <= r.launches && id < |s.launches|
  {
    HandedRuns(e, s, id, c);
    FollowAllFrontier(e, Handed(s, id, c), Examined(c.pivots), Deeper(s.pending[id].depth), id);
  }

  lemma FollowedAccounts(e: Setup, s: State, id: nat, c: Collection)
    requires RunsInOrder(e, s) && id in s.pending && Sound(s.store) && WellFormedAll(c)
    ensures var r := Followed(e, s, id, c); Accounts(r, Open(r, {id}))
  {
    HandedRuns(e, s, id, c);
    FollowAllAccounts(e, Handed(s, id, c), Examined(c.pivots), Deeper(s.pending[id].depth), id, {id});
  }

  lemma HandedMeasure(e: Setup, s: State, id: nat, c: Collection)
    requires id in s.pending
    ensures Measure(e, Handed(s, id, c)) < Measure(e, s)
  {
    TakenSize(s, id);
  }

  lemma FollowedMeasure(e: Setup, s: State, id: nat, c: Collection, x: SourceStatus)
    requires id in s.pending
    ensures Measure(e, Settled(Followed(e, s, id, c), x)) < Measure(e, s)
  {
    HandedMeasure(e, s, id, c);
    FollowAllMeasure(e, Handed(s, id, c), Examined(c.pivots), Deeper(s.pending[id].depth), id);
  }

  /** A completed run is not put back on the table by its own pivots. */
  lemma {:induction false} NotRequeued(e: Setup, s: State, pivots: seq<Indicator>, depth: U8, i: nat, id: nat)
    requires id !in s.pending && id < |s.launches|
    ensures id !in FollowAll(e, s, pivots, depth, FromRun(i)).pending
    decreases |pivots|
  {
    if pivots != [] {
      if Enters(e, s, pivots[0], depth) {
        NotRescheduled(e, Entered(s, pivots[0]), pivots[0], depth, FromRun(i), 0, id);
      }
      NotRequeued(e, Follow(e, s, pivots[0], depth, FromRun(i)), pivots[1..], depth, i, id);
    }
  }

  lemma {:induction false} NotRescheduled(e: Setup, s: State, ind: Indicator, depth: U8, origin: Origin, k: nat, id: nat)
    requires k <= |e.collectors| && id !in s.pending && id < |s.launches|
    ensures var r := Schedule(e, s, ind, depth, origin, k); id !in r.pending && id < |r.launches|
    decreases |e.collectors| - k
  {
    if k < |e.collectors| {
      OfferPending(e, s, ind, depth, origin, k);
      NotRescheduled(e, Offer(e, s, e.collectors[k], ind, depth, origin), ind, depth, origin, k + 1, id);
    }
  }

  lemma FollowedSources(e: Setup, s: State, id: nat, c: Collection)
    requires RunsInOrder(e, s) && SourcesInOrder(e, s) && id in s.pending && WellFormedAll(c)
    ensures var r := Followed(e, s, id, c);
      && Considered(e, r) && Covered(e, r, r.store.target, |e.collectors|) && Books(r, |c.observations|)
      && Bounds(e, r, 0, 0)
  {
    var h, depth := Handed(s, id, c), Deeper(s.pending[id].depth);
    HandedRuns(e, s, id, c);
    HandedSources(e, s, id, c);
    FollowAllConsidered(e, h, Examined(c.pivots), depth, id);
    FollowAllBooks(e, h, Examined(c.pivots), depth, id, |c.observations|);
    FollowAllBounds(e, h, Examined(c.pivots), depth, id, MAX_PIVOT_CANDIDATES);
  }

  lemma StatusKept(s: State, r: State, id: nat, x: SourceStatus)
    requires StatusFor(s, id, x) && s.launches <= r.launches
    ensures StatusFor(r, id, x)
  {
    assert r.launches[id] == s.launches[id];
  }

  lemma FollowedNotPending(e: Setup, s: State, id: nat, c: Collection)
    requires id in s.pending && id < |s.launches|
    ensures id !in Followed(e, s, id, c).pending
  {
    NotRequeued(e, Handed(s, id, c), Examined(c.pivots), Deeper(s.pending[id].depth), id, id);
  }

  lemma CollectedAccounts(e: Setup, s: State, id: nat, c: Collection, x: SourceStatus)
    requires RunsInOrder(e, s) && id in s.pending && Sound(s.store) && WellFormedAll(c) && StatusFor(s, id, x)
    ensures var r := Settled(Followed(e, s, id, c), x); Accounts(r, Open(r, {}))
  {
    FollowedLedger(e, s, id, c);
    FollowedAccounts(e, s, id, c);
    FollowedNotPending(e, s, id, c);
    StatusKept(s, Followed(e, s, id, c), id, x);
    SettledAccounts(e, Followed(e, s, id, c), id, x);
  }

  lemma CollectedRuns(e: Setup, s: State, id: nat, c: Collection, x: SourceStatus)
    requires RunsInOrder(e, s) && id in s.pending && Sound(s.store) && WellFormedAll(c) && StatusFor(s, id, x)
    ensures var r := Settled(Followed(e, s, id, c), x); RunsInOrder(e, r) && s.launches <= r.launches
  {
    FollowedLedger(e, s, id, c);
    SettledLedger(e, Followed(e, s, id, c), x);
    CollectedAccounts(e, s, id, c, x);
  }

  lemma CollectedSources(e: Setup, s: State, id: nat, c: Collection, x: SourceStatus)
    requires RunsInOrder(e, s) && SourcesInOrder(e, s) && id in s.pending && WellFormedAll(c)
    requires StatusFor(s, id, x) && Brings(x) == |c.observations|
    ensures SourcesInOrder(e, Settled(Followed(e, s, id, c), x))
  {
    FollowedLedger(e, s, id, c);
    FollowedSources(e, s, id, c);
    var f := Followed(e, s, id, c);
    StatusKept(s, f, id, x);
    SettledConsidered(e, f, id, x);
    SettledBooks(f, x, |c.observations|);
  }

  lemma CollectedRests(e: Setup, s: State, id: nat, c: Collection, x: SourceStatus)
    requires Resting(e, s) && id in s.pending && WellFormedAll(c)
    requires StatusFor(s, id, x) && Brings(x) == |c.observations|
    ensures Resting(e, Settled(Followed(e, s, id, c), x))
    ensures s.launches <= Settled(Followed(e, s, id, c), x).launches
  {
    var r := Settled(Followed(e, s, id, c), x);
    assert RunsInOrder(e, r) && s.launches <= r.launches by { CollectedRuns(e, s, id, c, x); }
    assert SourcesInOrder(e, r) by { CollectedSources(e, s, id, c, x); }
  }

  function RunStatus(s: State, id: nat, end: TaskEnd, from: Timestamp, to: Timestamp): (x: SourceStatus)
    requires id in s.pending
    ensures Brings(x) == if end.Collected? then |end.collection.observations| else 0
  {
    NewStatus(s.pending[id].source, s.pending[id].indicator, OutcomeOf(end), from, to)
  }

  lemma CompleteParts(e: Setup, s: State, id: nat, end: TaskEnd, from: Timestamp, to: Timestamp)
    requires id in s.pending
    ensures Complete(e, s, id, end, from, to)
         == if end.Collected? then Settled(Followed(e, s, id, end.collection), RunStatus(s, id, end, from, to))
            else Retired(s, id, RunStatus(s, id, end, from, to))
  {
  }

  /** `r` is a resting state closer to the end, with the launches of `s`. */
  ghost predicate Progress(e: Setup, s: State, r: State)
  {
    Resting(e, r) && Measure(e, r) < Measure(e, s) && s.launches <= r.launches
  }

  lemma CollectedProgress(e: Setup, s: State, id: nat, c: Collection, x: SourceStatus)
    requires Resting(e, s) && id in s.pending && WellFormedAll(c)
    requires StatusFor(s, id, x) && Brings(x) == |c.observations|
    ensures Progress(e, s, Settled(Followed(e, s, id, c), x))
  {
    CollectedRests(e, s, id, c, x);
    FollowedMeasure(e, s, id, c, x);
  }

  lemma RetiredProgress(e: Setup, s: State, id: nat, x: SourceStatus)
    requires Resting(e, s) && id in s.pending && StatusFor(s, id, x) && Brings(x) == 0
    ensures Progress(e, s, Retired(s, id, x))
  {
    RetiredRests(e, s, id, x);
  }

  lemma RunStatusFits(e: Setup, s: State, id: nat, end: TaskEnd, from: Timestamp, to: Timestamp)
    requires Resting(e, s) && id in s.pending
    ensures StatusFor(s, id, RunStatus(s, id, end, from, to))
  {
    PendingMatches(e, s, id, OutcomeOf(end), from, to);
  }

  lemma CompleteRests(e: Setup, s: State, id: nat, end: TaskEnd, from: Timestamp, to: Timestamp)
    requires Resting(e, s) && id in s.pending && (end.Collected? ==> WellFormedAll(end.collection))
    ensures Progress(e, s, Complete(e, s, id, end, from, to))
  {
    CompleteParts(e, s, id, end, from, to);
    RunStatusFits(e, s, id, end, from, to);
    if end.Collected? {
      CollectedProgress(e, s, id, end.collection, RunStatus(s, id, end, from, to));
    } else {
      RetiredProgress(e, s, id, RunStatus(s, id, end, from, to));
    }
  }

  /** Every join event keeps all invariants, lowers the measure and forgets no
      launch. */
  lemma StepProgress(e: Setup, s: State, event: Event)
    requires Resting(e, s) && Enabled(s, event)
    ensures Progress(e, s, Step(e, s, event))
  {
    match event
    case Completed(id, end, from, to) => CompleteRests(e, s, id, end, from, to);
    case Crashed(id) => CrashRests(e, s, id);
    case Deadline(order) => DeadlineOrder(s, order); CancelRests(e, s, order); CancelEmpties(e, s, order);
  }
}
