/** What the finished investigation says about its sources, for every run of the
    engine in which no task is left. */
module EngineReport {
  import opened Results
  import opened Model
  import opened Investigation
  import opened EngineSpec
  import opened EngineInvariants
  import opened EngineTheorems

  /** A run whose loop has ended. */
  ghost predicate Ended(e: Setup, store: Store, events: seq<Event>)
  {
    Run(e, store, events) && Reached(e, store, events).pending == map[]
  }

  /** The report of such a run. */
  function Report(e: Setup, store: Store, events: seq<Event>): (r: EngineRun)
  {
    Close(e, Reached(e, store, events))
  }

  // ------------------------------------------------------ unsupported sources

  function UnsupportedStatuses(ss: seq<SourceStatus>, src: SourceId): (n: nat)
  {
    Count(ss, (x: SourceStatus) => x.outcome.Unsupported? && x.source == src)
  }

  lemma AppendUnsupported(ss: seq<SourceStatus>, x: SourceStatus, src: SourceId, ind: Indicator)
    requires x.outcome.Unsupported?
    ensures RunStatuses(ss + [x], src, ind) == RunStatuses(ss, src, ind)
    ensures StatusesOf(ss + [x], src) == StatusesOf(ss, src) + (if x.source == src then 1 else 0)
    ensures UnsupportedStatuses(ss + [x], src) == UnsupportedStatuses(ss, src) + (if x.source == src then 1 else 0)
    ensures Delivered(ss + [x]) == Delivered(ss)
  {
    AppendStatus(ss, x, src, ind);
    CountSnoc(ss, x, (x: SourceStatus) => x.outcome.Unsupported? && x.source == src);
    DeliveredSnoc(ss, x);
  }

  /** Whether a collector from position `k` on has this identifier and was never
      considered. */
  ghost predicate Missed(e: Setup, considered: set<SourceId>, k: nat, src: SourceId)
  {
    src !in considered && exists j :: k <= j < |e.collectors| && e.collectors[j].id == src
  }

  lemma {:induction false} UnsupportedCounts(e: Setup, s: Store, considered: set<SourceId>, now: Timestamp, k: nat, src: SourceId, ind: Indicator)
    requires k <= |e.collectors| && DistinctIds(e.collectors)
    ensures var r := RecordUnsupported(e, s, considered, now, k);
      && r == s.(sources := r.sources)
      && RunStatuses(r.sources, src, ind) == RunStatuses(s.sources, src, ind)
      && StatusesOf(r.sources, src) == StatusesOf(s.sources, src) + (if Missed(e, considered, k, src) then 1 else 0)
      && UnsupportedStatuses(r.sources, src) == UnsupportedStatuses(s.sources, src) + (if Missed(e, considered, k, src) then 1 else 0)
      && Delivered(r.sources) == Delivered(s.sources)
    decreases |e.collectors| - k
  {
    if k < |e.collectors| {
      var c := e.collectors[k];
      if c.id in considered {
        UnsupportedCounts(e, s, considered, now, k + 1, src, ind);
      } else {
        var x := NewStatus(c.id, s.target, Unsupported, now, now);
        AppendUnsupported(s.sources, x, src, ind);
        UnsupportedCounts(e, WithSource(s, x), considered, now, k + 1, src, ind);
      }
      MissedStep(e, considered, k, src);
    }
  }

  lemma MissedStep(e: Setup, considered: set<SourceId>, k: nat, src: SourceId)
    requires k < |e.collectors| && DistinctIds(e.collectors)
    ensures Missed(e, considered, k, src) <==>
              Missed(e, considered, k + 1, src) || (e.collectors[k].id !in considered && e.collectors[k].id == src)
    ensures e.collectors[k].id == src ==> !Missed(e, considered, k + 1, src)
  {
  }

  lemma {:induction false} UnsupportedStaysSound(e: Setup, s: Store, considered: set<SourceId>, now: Timestamp, k: nat)
    requires k <= |e.collectors| && Sound(s)
    requires forall x :: x in s.sources ==> x.startedAt <= x.finishedAt
    ensures var r := RecordUnsupported(e, s, considered, now, k);
      && Sound(r) && r == s.(sources := r.sources)
      && (forall x :: x in r.sources ==> x.startedAt <= x.finishedAt)
      && (forall x :: x in r.sources && x.outcome.IsRun() ==> x in s.sources)
    decreases |e.collectors| - k
  {
    if k < |e.collectors| {
      var c := e.collectors[k];
      var x := NewStatus(c.id, s.target, Unsupported, now, now);
      StatusKeepsSound(s, x);
      UnsupportedStaysSound(e, if c.id in considered then s else WithSource(s, x), considered, now, k + 1);
    }
  }

  // ------------------------------------------------------------ main results

  lemma RunStatusCount(e: Setup, store: Store, events: seq<Event>, i: nat)
    requires Ended(e, store, events) && i < |Reached(e, store, events).launches|
    ensures var launch := Reached(e, store, events).launches[i];
            RunStatuses(Report(e, store, events).store.sources, launch.source, launch.indicator) == 1
  {
    ReachedRests(e, store, events);
    var s := Reached(e, store, events);
    var now := Later(e.clock(s.ticks), s.store.startedAt);
    UnsupportedCounts(e, s.store, s.considered, now, 0, s.launches[i].source, s.launches[i].indicator);
    assert i !in Open(s, {});
  }

  /** Each run that was started has exactly one status, however it ended, and
      every status of a run belongs to one that was started. */
  lemma EachRunReportedOnce(e: Setup, store: Store, events: seq<Event>)
    requires Ended(e, store, events)
    ensures var s, sources := Reached(e, store, events), Report(e, store, events).store.sources;
      && (forall i :: 0 <= i < |s.launches| ==>
            RunStatuses(sources, s.launches[i].source, s.launches[i].indicator) == 1)
      && (forall x :: x in sources && x.outcome.IsRun() ==> Launched(s, x.source, x.indicator))
  {
    var s, r := Reached(e, store, events), Report(e, store, events);
    forall i | 0 <= i < |s.launches|
      ensures RunStatuses(r.store.sources, s.launches[i].source, s.launches[i].indicator) == 1
    {
      RunStatusCount(e, store, events, i);
    }
    ReachedRests(e, store, events);
    UnsupportedStaysSound(e, s.store, s.considered, Later(e.clock(s.ticks), s.store.startedAt), 0);
  }

  /** Every registered source has a status. */
  lemma EverySourceReported(e: Setup, store: Store, events: seq<Event>, k: nat)
    requires Ended(e, store, events) && k < |e.collectors|
    ensures StatusesOf(Report(e, store, events).store.sources, e.collectors[k].id) >= 1
  {
    ReachedRests(e, store, events);
    var s := Reached(e, store, events);
    var src := e.collectors[k].id;
    UnsupportedCounts(e, s.store, s.considered, Later(e.clock(s.ticks), s.store.startedAt), 0, src, store.target);
    if src in s.considered {
      if LaunchedSource(s, src) {
        var i :| 0 <= i < |s.launches| && s.launches[i].source == src;
        assert i !in Open(s, {});
        CountPositive(s.store.sources, (x: SourceStatus) => x.outcome.IsRun() && x.source == src && x.indicator == s.launches[i].indicator);
        CountPositive(s.store.sources, (x: SourceStatus) => x.source == src);
      } else {
        CountPositive(s.store.sources, (x: SourceStatus) => x.outcome.Unavailable? && x.source == src);
        CountPositive(s.store.sources, (x: SourceStatus) => x.source == src);
      }
    } else {
      assert Missed(e, s.considered, 0, src);
    }
  }

  lemma NoUnsupportedYet(e: Setup, s: State, src: SourceId)
    requires Considered(e, s)
    ensures UnsupportedStatuses(s.store.sources, src) == 0
  {
    CountPositive(s.store.sources, (x: SourceStatus) => x.outcome.Unsupported? && x.source == src);
  }

  /** A source is reported as unsupported exactly when it takes none of the
      visited indicators, and then this is its only status. A source that runs on
      targets only does not take a pivot, whatever it supports. */
  lemma UnsupportedExactly(e: Setup, store: Store, events: seq<Event>, k: nat)
    requires Ended(e, store, events) && k < |e.collectors|
    ensures var s, sources, c := Reached(e, store, events), Report(e, store, events).store.sources, e.collectors[k];
      && (UnsupportedStatuses(sources, c.id) > 0 <==> forall v :: v in s.visited ==> !Takes(c, v, store.target))
      && (UnsupportedStatuses(sources, c.id) > 0 ==> StatusesOf(sources, c.id) == 1)
  {
    ReachedRests(e, store, events);
    TargetKept(e, store, events);
    var s, c := Reached(e, store, events), e.collectors[k];
    UnsupportedCounts(e, s.store, s.considered, Later(e.clock(s.ticks), s.store.startedAt), 0, c.id, store.target);
    NoUnsupportedYet(e, s, c.id);
    assert Missed(e, s.considered, 0, c.id) <==> c.id !in s.considered;
    if c.id in s.considered {
      var v :| v in s.visited && Takes(c, v, s.store.target);
    }
  }

  /** A source that is never ready is never run and has exactly one status. */
  lemma UnavailableReportedOnce(e: Setup, store: Store, events: seq<Event>, k: nat)
    requires Ended(e, store, events) && k < |e.collectors|
    requires forall t :: !e.collectors[k].ready(t)
    ensures var s, src := Reached(e, store, events), e.collectors[k].id;
      !LaunchedSource(s, src) && StatusesOf(Report(e, store, events).store.sources, src) == 1
  {
    ReachedRests(e, store, events);
    var s, src := Reached(e, store, events), e.collectors[k].id;
    NeverLaunched(e, s, k);
    UnsupportedCounts(e, s.store, s.considered, Later(e.clock(s.ticks), s.store.startedAt), 0, src, store.target);
    if src in s.considered {
      OnlyUnavailable(e, s, src);
    } else {
      assert Missed(e, s.considered, 0, src);
    }
  }

  lemma NeverLaunched(e: Setup, s: State, k: nat)
    requires Ledger(e, s) && DistinctIds(e.collectors) && k < |e.collectors|
    requires forall t :: !e.collectors[k].ready(t)
    ensures !LaunchedSource(s, e.collectors[k].id)
  {
    forall i | 0 <= i < |s.launches| ensures s.launches[i].source != e.collectors[k].id {
      assert LaunchOk(e, s, i);
      var j :| Explains(e, j, s.launches[i]);
      assert j != k;
    }
  }

  lemma OnlyUnavailable(e: Setup, s: State, src: SourceId)
    requires Accounts(s, Open(s, {})) && Considered(e, s) && !LaunchedSource(s, src)
    ensures StatusesOf(s.store.sources, src) == UnavailableStatuses(s.store.sources, src)
  {
    forall x | x in s.store.sources ensures x.source == src <==> x.outcome.Unavailable? && x.source == src {
      if x.outcome.IsRun() {
        assert Launched(s, x.source, x.indicator);
        assert LaunchedSource(s, x.source);
      }
    }
    CountAgrees(s.store.sources, (x: SourceStatus) => x.source == src,
                (x: SourceStatus) => x.outcome.Unavailable? && x.source == src);
  }

  /** Nothing a collector returned is lost or forged: the observations held are
      as many as the succeeded and partial runs report, all cited evidence
      resolves, and the times are in order. */
  lemma ObservationsConserved(e: Setup, store: Store, events: seq<Event>)
    requires Ended(e, store, events)
    ensures var r := Report(e, store, events).store;
      && Delivered(r.sources) == |r.observations| && Sound(r)
      && r.finishedAt.Some? && r.startedAt <= r.finishedAt.value
      && forall x :: x in r.sources ==> x.startedAt <= x.finishedAt
  {
    ReachedRests(e, store, events);
    var s := Reached(e, store, events);
    var now := Later(e.clock(s.ticks), s.store.startedAt);
    UnsupportedCounts(e, s.store, s.considered, now, 0, "", store.target);
    UnsupportedStaysSound(e, s.store, s.considered, now, 0);
    var accounted := RecordUnsupported(e, s.store, s.considered, now, 0);
    assert forall id :: Known(accounted, id) ==> Known(Report(e, store, events).store, id);
  }
}
