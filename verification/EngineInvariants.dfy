/** What every step of the engine keeps. Each family of facts is a predicate of
    its own, kept first by offering an indicator to one collector, then by
    scheduling, following pivots and each join event. */
module EngineInvariants {
  import opened Results
  import opened Model
  import opened Investigation
  import opened EngineSpec

  // --------------------------------------------------------------- counting

  function Count(ss: seq<SourceStatus>, p: SourceStatus -> bool): (n: nat)
  {
    if ss == [] then 0 else Count(ss[..|ss| - 1], p) + (if p(ss[|ss| - 1]) then 1 else 0)
  }

  lemma CountSnoc(ss: seq<SourceStatus>, x: SourceStatus, p: SourceStatus -> bool)
    ensures Count(ss + [x], p) == Count(ss, p) + (if p(x) then 1 else 0)
  {
    assert (ss + [x])[..|ss|] == ss;
  }

  lemma {:induction false} CountAgrees(ss: seq<SourceStatus>, p: SourceStatus -> bool, q: SourceStatus -> bool)
    requires forall x :: x in ss ==> p(x) == q(x)
    ensures Count(ss, p) == Count(ss, q)
  {
    if ss != [] {
      var init := ss[..|ss| - 1];
      assert ss == init + [ss[|ss| - 1]];
      CountAgrees(init, p, q);
    }
  }

  lemma {:induction false} CountPositive(ss: seq<SourceStatus>, p: SourceStatus -> bool)
    ensures Count(ss, p) > 0 <==> exists x :: x in ss && p(x)
  {
    if ss != [] {
      var init := ss[..|ss| - 1];
      assert ss == init + [ss[|ss| - 1]];
      CountPositive(init, p);
    }
  }

  /** Statuses of runs of this source against this indicator. */
  function RunStatuses(ss: seq<SourceStatus>, src: SourceId, ind: Indicator): (n: nat)
  {
    Count(ss, (x: SourceStatus) => x.outcome.IsRun() && x.source == src && x.indicator == ind)
  }

  function UnavailableStatuses(ss: seq<SourceStatus>, src: SourceId): (n: nat)
  {
    Count(ss, (x: SourceStatus) => x.outcome.Unavailable? && x.source == src)
  }

  function StatusesOf(ss: seq<SourceStatus>, src: SourceId): (n: nat)
  {
    Count(ss, (x: SourceStatus) => x.source == src)
  }

  lemma AppendStatus(ss: seq<SourceStatus>, x: SourceStatus, src: SourceId, ind: Indicator)
    ensures RunStatuses(ss + [x], src, ind)
         == RunStatuses(ss, src, ind) + (if x.outcome.IsRun() && x.source == src && x.indicator == ind then 1 else 0)
    ensures UnavailableStatuses(ss + [x], src)
         == UnavailableStatuses(ss, src) + (if x.outcome.Unavailable? && x.source == src then 1 else 0)
    ensures StatusesOf(ss + [x], src) == StatusesOf(ss, src) + (if x.source == src then 1 else 0)
  {
    CountSnoc(ss, x, (x: SourceStatus) => x.outcome.IsRun() && x.source == src && x.indicator == ind);
    CountSnoc(ss, x, (x: SourceStatus) => x.outcome.Unavailable? && x.source == src);
    CountSnoc(ss, x, (x: SourceStatus) => x.source == src);
  }

  /** Observations reported by the succeeded and partial runs. */
  function Delivered(ss: seq<SourceStatus>): (n: nat)
  {
    if ss == [] then 0
    else
      var last := ss[|ss| - 1].outcome;
      Delivered(ss[..|ss| - 1])
      + (match last case Succeeded(n) => n case Partial(n, _) => n case _ => 0)
  }

  lemma DeliveredSnoc(ss: seq<SourceStatus>, x: SourceStatus)
    ensures Delivered(ss + [x])
         == Delivered(ss) + (match x.outcome case Succeeded(n) => n case Partial(n, _) => n case _ => 0)
  {
    assert (ss + [x])[..|ss|] == ss;
  }

  // ------------------------------------------------------------- predicates

  /** Which indicators were followed, and how many. */
  ghost predicate Frontier(e: Setup, s: State)
  {
    && s.store.target in s.visited
    && s.visited !! s.dropped
    && (forall v :: v in s.visited ==> e.investigable(v))
    && s.pivotsFollowed == |s.visited| - 1
    && |s.visited| <= 1 + e.limits.maxEntities
  }

  /** A collector that could have made this launch. */
  ghost predicate Explains(e: Setup, k: nat, launch: Launch)
  {
    && k < |e.collectors| && e.collectors[k].id == launch.source
    && Applies(e.collectors[k], launch.indicator, launch.depth)
    && exists t :: e.collectors[k].ready(t)
  }

  ghost predicate LaunchOk(e: Setup, s: State, i: nat)
    requires i < |s.launches|
  {
    var launch := s.launches[i];
    && launch.indicator in s.visited
    && launch.depth <= e.limits.maxDepth
    && launch.hops <= |s.visited| - 1
    && (exists k :: Explains(e, k, launch))
    && (match launch.parent
        case None => launch.indicator == s.store.target && launch.depth == 0 && launch.hops == 0
        case Some(j) =>
          && j < i && launch.indicator != s.store.target
          && launch.depth == Deeper(s.launches[j].depth) && launch.hops == s.launches[j].hops + 1)
  }

  /** The history of launches matches the table of pending tasks, and no collector
      is launched twice on one indicator. */
  ghost predicate Ledger(e: Setup, s: State)
  {
    && s.sourceRuns == |s.launches|
    && (forall id :: id in s.pending ==>
          id < |s.launches| && s.pending[id].source == s.launches[id].source &&
          s.pending[id].indicator == s.launches[id].indicator && s.pending[id].depth == s.launches[id].depth)
    && (forall i :: 0 <= i < |s.launches| ==> LaunchOk(e, s, i))
    && (forall i, j :: 0 <= i < j < |s.launches| ==>
          s.launches[i].source != s.launches[j].source || s.launches[i].indicator != s.launches[j].indicator)
  }

  /** A launched run has one status when it is over and none before; `open` are
      the runs still without one. Every run status belongs to a launch. */
  ghost predicate Accounts(s: State, open: set<nat>)
  {
    && (forall i :: 0 <= i < |s.launches| ==>
          RunStatuses(s.store.sources, s.launches[i].source, s.launches[i].indicator) == (if i in open then 0 else 1))
    && (forall x :: x in s.store.sources && x.outcome.IsRun() ==> Launched(s, x.source, x.indicator))
  }

  ghost predicate Launched(s: State, src: SourceId, ind: Indicator)
  {
    exists i :: 0 <= i < |s.launches| && s.launches[i].source == src && s.launches[i].indicator == ind
  }

  ghost predicate LaunchedSource(s: State, src: SourceId)
  {
    exists i :: 0 <= i < |s.launches| && s.launches[i].source == src
  }

  /** The collector takes this visited indicator: the target, or a pivot if it
      runs on pivots. */
  ghost predicate Takes(c: Collector, v: Indicator, target: Indicator)
  {
    c.supports(v) && (v == target || c.onPivots)
  }

  /** The considered sources are those with a run or an "unavailable" status, of
      which there is at most one; other sources have no status at all. */
  ghost predicate Considered(e: Setup, s: State)
  {
    && (forall src :: src in s.considered ==> LaunchedSource(s, src) || UnavailableStatuses(s.store.sources, src) == 1)
    && (forall src :: src !in s.considered ==> !LaunchedSource(s, src) && StatusesOf(s.store.sources, src) == 0)
    && (forall src :: UnavailableStatuses(s.store.sources, src) <= 1)
    && (forall x :: x in s.store.sources ==> !x.outcome.Unsupported?)
    && (forall k :: 0 <= k < |e.collectors| && e.collectors[k].id in s.considered ==>
          exists v :: v in s.visited && Takes(e.collectors[k], v, s.store.target))
  }

  /** Every collector that takes a visited indicator was considered, except for
      `ind` at the collectors from `k` on. */
  ghost predicate Covered(e: Setup, s: State, ind: Indicator, k: nat)
  {
    forall j, v :: 0 <= j < |e.collectors| && v in s.visited && Takes(e.collectors[j], v, s.store.target) ==>
      e.collectors[j].id in s.considered || (v == ind && j >= k)
  }

  /** The store is sound, every status ends after it starts, and its observations
      are those reported, up to `carried` of a run not recorded yet. */
  ghost predicate Books(s: State, carried: nat)
  {
    && Sound(s.store) && s.store.finishedAt.None?
    && Delivered(s.store.sources) + carried == |s.store.observations|
    && (forall x :: x in s.store.sources ==> x.startedAt <= x.finishedAt)
  }

  /** Work bounds: at most one launch for each collector and visited indicator
      (`slots` of them still free), at most 1000 rejections for each run that is
      over (`quota` of them still free). */
  ghost predicate Bounds(e: Setup, s: State, slots: nat, quota: nat)
  {
    && |s.launches| + slots <= |e.collectors| * |s.visited|
    && |s.pending| <= |s.launches|
    && |s.dropped| + quota <= MAX_PIVOT_CANDIDATES * (|s.launches| - |s.pending|)
  }

  /** The scheduling of `ind` has reached collector `k`. */
  ghost predicate Scheduling(e: Setup, s: State, ind: Indicator, depth: U8, origin: Origin, k: nat)
  {
    && k <= |e.collectors| && DistinctIds(e.collectors)
    && ind in s.visited && depth <= e.limits.maxDepth
    && HopsFrom(s, origin) <= |s.visited| - 1
    && (match origin
        case FromTarget => ind == s.store.target && depth == 0
        case FromRun(i) => ind != s.store.target && i < |s.launches| && depth == Deeper(s.launches[i].depth))
    && (forall i, j :: 0 <= i < |s.launches| && k <= j < |e.collectors| ==>
          s.launches[i].indicator != ind || s.launches[i].source != e.collectors[j].id)
  }

  // ------------------------------------------------------ offering an indicator

  function Fresh(s: State): (id: nat) { |s.launches| }

  /** What one offer can do: nothing, one "unavailable" status, or one launch. */
  lemma OfferCases(e: Setup, s: State, ind: Indicator, depth: U8, origin: Origin, k: nat)
    requires k < |e.collectors|
    ensures var c, r := e.collectors[k], Offer(e, s, e.collectors[k], ind, depth, origin);
      && r.visited == s.visited && r.dropped == s.dropped && r.overflow == s.overflow
      && r.pivotsFollowed == s.pivotsFollowed && r.deadlineExceeded == s.deadlineExceeded
      && (Applies(c, ind, depth) ==> c.id in r.considered)
      && (|| (r == s.(ticks := r.ticks) && (Applies(c, ind, depth) ==> c.id in s.considered))
          || (&& c.id !in s.considered && Applies(c, ind, depth) && r.considered == s.considered + {c.id}
              && r.pending == s.pending && r.launches == s.launches && r.sourceRuns == s.sourceRuns
              && exists now :: r.store == WithSource(s.store, NewStatus(c.id, ind, Unavailable, now, now)))
          || (&& Applies(c, ind, depth) && (exists t :: c.ready(t))
              && r.considered == s.considered + {c.id} && r.store == s.store && r.sourceRuns == s.sourceRuns + 1
              && r.launches == s.launches + [Launch(c.id, ind, depth, if origin.FromRun? then Some(origin.run) else None, HopsFrom(s, origin))]
              && exists at :: r.pending == s.pending[Fresh(s) := Task(c.id, ind, depth, at)]))
  {
    var c := e.collectors[k];
    var now := e.clock(s.ticks + 1);
    var st := NewStatus(c.id, ind, Unavailable, now, now);
    assert st == NewStatus(c.id, ind, Unavailable, now, now);
  }

  /** The launches made before stay explained, and so is the new one. */
  lemma OfferLaunches(e: Setup, s: State, ind: Indicator, depth: U8, origin: Origin, k: nat)
    requires Ledger(e, s) && Scheduling(e, s, ind, depth, origin, k) && k < |e.collectors|
    ensures var r := Offer(e, s, e.collectors[k], ind, depth, origin);
            forall i :: 0 <= i < |r.launches| ==> LaunchOk(e, r, i)
  {
    OfferCases(e, s, ind, depth, origin, k);
    var r := Offer(e, s, e.collectors[k], ind, depth, origin);
    if |r.launches| > |s.launches| {
      assert Explains(e, k, r.launches[|s.launches|]);
    }
    forall i | 0 <= i < |r.launches| ensures LaunchOk(e, r, i) {
      if i < |s.launches| {
        assert LaunchOk(e, s, i);
        assert r.launches[i] == s.launches[i];
        if s.launches[i].parent.Some? {
          assert r.launches[s.launches[i].parent.value] == s.launches[s.launches[i].parent.value];
        }
      }
    }
  }

  lemma OfferLedger(e: Setup, s: State, ind: Indicator, depth: U8, origin: Origin, k: nat)
    requires Ledger(e, s) && Scheduling(e, s, ind, depth, origin, k) && k < |e.collectors|
    ensures var r := Offer(e, s, e.collectors[k], ind, depth, origin);
            Ledger(e, r) && Scheduling(e, r, ind, depth, origin, k + 1)
  {
    OfferCases(e, s, ind, depth, origin, k);
    OfferLaunches(e, s, ind, depth, origin, k);
  }

  lemma NoRunStatus(s: State, open: set<nat>, src: SourceId, ind: Indicator)
    requires Accounts(s, open) && !Launched(s, src, ind)
    ensures RunStatuses(s.store.sources, src, ind) == 0
  {
    CountPositive(s.store.sources, (x: SourceStatus) => x.outcome.IsRun() && x.source == src && x.indicator == ind);
  }

  lemma OfferAccounts(e: Setup, s: State, ind: Indicator, depth: U8, origin: Origin, k: nat, open: set<nat>)
    requires Ledger(e, s) && Accounts(s, open) && Scheduling(e, s, ind, depth, origin, k) && k < |e.collectors|
    requires forall i :: i in open ==> i < |s.launches|
    ensures var r := Offer(e, s, e.collectors[k], ind, depth, origin);
            Accounts(r, open + (if |r.launches| > |s.launches| then {|s.launches|} else {}))
  {
    OfferCases(e, s, ind, depth, origin, k);
    var c := e.collectors[k];
    var r := Offer(e, s, c, ind, depth, origin);
    if r.store.sources != s.store.sources {
      var x := r.store.sources[|s.store.sources|];
      assert r.store.sources == s.store.sources + [x];
      forall i | 0 <= i < |s.launches|
        ensures RunStatuses(r.store.sources, r.launches[i].source, r.launches[i].indicator)
             == RunStatuses(s.store.sources, s.launches[i].source, s.launches[i].indicator)
      {
        AppendStatus(s.store.sources, x, s.launches[i].source, s.launches[i].indicator);
      }
    } else if |r.launches| > |s.launches| {
      NoRunStatus(s, open, c.id, ind);
    }
    forall x | x in r.store.sources && x.outcome.IsRun() ensures Launched(r, x.source, x.indicator) {
      assert Launched(s, x.source, x.indicator);
      var i :| 0 <= i < |s.launches| && s.launches[i].source == x.source && s.launches[i].indicator == x.indicator;
      assert r.launches[i] == s.launches[i];
    }
  }

  lemma OfferConsidered(e: Setup, s: State, ind: Indicator, depth: U8, origin: Origin, k: nat)
    requires Considered(e, s) && Scheduling(e, s, ind, depth, origin, k) && k < |e.collectors|
    requires Covered(e, s, ind, k)
    ensures var r := Offer(e, s, e.collectors[k], ind, depth, origin);
            Considered(e, r) && Covered(e, r, ind, k + 1)
  {
    OfferCases(e, s, ind, depth, origin, k);
    var c := e.collectors[k];
    var r := Offer(e, s, c, ind, depth, origin);
    assert Applies(c, ind, depth) <==> Takes(c, ind, s.store.target) by {
      assert depth == 0 <==> ind == s.store.target;
    }
    forall src
      ensures LaunchedSource(r, src) <==> LaunchedSource(s, src) || (|r.launches| > |s.launches| && src == c.id)
    {
      if LaunchedSource(s, src) {
        var i :| 0 <= i < |s.launches| && s.launches[i].source == src;
        assert r.launches[i].source == src;
      }
      if |r.launches| > |s.launches| && src == c.id {
        assert r.launches[|s.launches|].source == src;
      }
    }
    if r.store.sources != s.store.sources {
      var x := r.store.sources[|s.store.sources|];
      assert r.store.sources == s.store.sources + [x];
      forall src
        ensures UnavailableStatuses(r.store.sources, src)
             == UnavailableStatuses(s.store.sources, src) + (if src == c.id then 1 else 0)
        ensures StatusesOf(r.store.sources, src) == StatusesOf(s.store.sources, src) + (if src == c.id then 1 else 0)
      {
        AppendStatus(s.store.sources, x, src, ind);
      }
      NoneWithout(s.store.sources, c.id);
    }
    forall j | 0 <= j < |e.collectors| && e.collectors[j].id in r.considered
      ensures exists v :: v in r.visited && Takes(e.collectors[j], v, r.store.target)
    {
      if e.collectors[j].id !in s.considered {
        assert j == k by { assert e.collectors[j].id == e.collectors[k].id; }
        assert Takes(c, ind, r.store.target);
      } else {
        var v :| v in s.visited && Takes(e.collectors[j], v, s.store.target);
        assert v in r.visited && Takes(e.collectors[j], v, r.store.target);
      }
    }
  }

  /** Without any status there is no "unavailable" one. */
  lemma NoneWithout(ss: seq<SourceStatus>, src: SourceId)
    requires StatusesOf(ss, src) == 0
    ensures UnavailableStatuses(ss, src) == 0
  {
    CountPositive(ss, (x: SourceStatus) => x.source == src);
    CountPositive(ss, (x: SourceStatus) => x.outcome.Unavailable? && x.source == src);
  }

  lemma StatusKeepsSound(s: Store, x: SourceStatus)
    requires Sound(s)
    ensures Sound(WithSource(s, x))
  {
    assert forall id :: Known(s, id) ==> Known(WithSource(s, x), id);
  }

  lemma OfferBooks(e: Setup, s: State, ind: Indicator, depth: U8, origin: Origin, k: nat, carried: nat)
    requires Books(s, carried) && k < |e.collectors|
    ensures Books(Offer(e, s, e.collectors[k], ind, depth, origin), carried)
  {
    OfferCases(e, s, ind, depth, origin, k);
    var r := Offer(e, s, e.collectors[k], ind, depth, origin);
    if r.store != s.store {
      var x := r.store.sources[|s.store.sources|];
      DeliveredSnoc(s.store.sources, x);
      StatusKeepsSound(s.store, x);
    }
  }

  lemma OfferBounds(e: Setup, s: State, ind: Indicator, depth: U8, origin: Origin, k: nat, slots: nat, quota: nat)
    requires Bounds(e, s, slots, quota) && k < |e.collectors| && slots > 0
    requires Ledger(e, s)
    ensures Bounds(e, Offer(e, s, e.collectors[k], ind, depth, origin), slots - 1, quota)
  {
    OfferCases(e, s, ind, depth, origin, k);
    var r := Offer(e, s, e.collectors[k], ind, depth, origin);
    if |r.launches| > |s.launches| {
      assert r.pending.Keys == s.pending.Keys + {Fresh(s)};
      assert |r.pending| == |r.pending.Keys| && |s.pending| == |s.pending.Keys|;
      assert Fresh(s) !in s.pending;
    }
  }

  lemma OfferPending(e: Setup, s: State, ind: Indicator, depth: U8, origin: Origin, k: nat)
    requires k < |e.collectors|
    ensures var r := Offer(e, s, e.collectors[k], ind, depth, origin);
      && r.pending.Keys == s.pending.Keys + (if |r.launches| > |s.launches| then {|s.launches|} else {})
      && s.launches <= r.launches && |r.launches| <= |s.launches| + 1
      && |r.pending| <= |s.pending| + 1
      && r.visited == s.visited && r.dropped == s.dropped && r.pivotsFollowed == s.pivotsFollowed
      && r.store.target == s.store.target
  {
    OfferCases(e, s, ind, depth, origin, k);
    var r := Offer(e, s, e.collectors[k], ind, depth, origin);
    assert |r.pending| == |r.pending.Keys| && |s.pending| == |s.pending.Keys|;
    if |r.launches| > |s.launches| {
      assert r.pending.Keys == s.pending.Keys + {|s.launches|};
    } else {
      assert r.pending == s.pending;
      assert s.pending.Keys + {} == s.pending.Keys;
    }
  }

  // ------------------------------------------------------------- scheduling

  lemma {:induction false} ScheduleFrame(e: Setup, s: State, ind: Indicator, depth: U8, origin: Origin, k: nat)
    requires k <= |e.collectors|
    ensures var r := Schedule(e, s, ind, depth, origin, k);
      && s.launches <= r.launches && s.pending.Keys <= r.pending.Keys
      && |r.pending| <= |s.pending| + (|e.collectors| - k)
      && r.visited == s.visited && r.dropped == s.dropped && r.pivotsFollowed == s.pivotsFollowed
      && r.store.target == s.store.target
    decreases |e.collectors| - k
  {
    if k < |e.collectors| {
      OfferPending(e, s, ind, depth, origin, k);
      ScheduleFrame(e, Offer(e, s, e.collectors[k], ind, depth, origin), ind, depth, origin, k + 1);
    }
  }

  lemma {:induction false} ScheduleLedger(e: Setup, s: State, ind: Indicator, depth: U8, origin: Origin, k: nat)
    requires Ledger(e, s) && Scheduling(e, s, ind, depth, origin, k)
    ensures Ledger(e, Schedule(e, s, ind, depth, origin, k))
    decreases |e.collectors| - k
  {
    if k < |e.collectors| {
      OfferLedger(e, s, ind, depth, origin, k);
      ScheduleLedger(e, Offer(e, s, e.collectors[k], ind, depth, origin), ind, depth, origin, k + 1);
    }
  }

  /** Runs without a status yet: the pending ones and the one being completed. */
  ghost function Open(s: State, held: set<nat>): (r: set<nat>)
  {
    s.pending.Keys + held
  }

  ghost predicate HeldOk(s: State, held: set<nat>)
  {
    forall i :: i in held ==> i < |s.launches|
  }

  lemma OfferOpen(e: Setup, s: State, ind: Indicator, depth: U8, origin: Origin, k: nat, held: set<nat>)
    requires Ledger(e, s) && Accounts(s, Open(s, held)) && HeldOk(s, held)
    requires Scheduling(e, s, ind, depth, origin, k) && k < |e.collectors|
    ensures var r := Offer(e, s, e.collectors[k], ind, depth, origin);
            Accounts(r, Open(r, held)) && HeldOk(r, held)
  {
    OpenInRange(e, s, held);
    OpenAfterOffer(e, s, ind, depth, origin, k, held);
    OfferAccounts(e, s, ind, depth, origin, k, Open(s, held));
  }

  lemma OpenInRange(e: Setup, s: State, held: set<nat>)
    requires Ledger(e, s) && HeldOk(s, held)
    ensures forall i :: i in Open(s, held) ==> i < |s.launches|
  {
  }

  lemma OpenAfterOffer(e: Setup, s: State, ind: Indicator, depth: U8, origin: Origin, k: nat, held: set<nat>)
    requires k < |e.collectors| && HeldOk(s, held)
    ensures var r := Offer(e, s, e.collectors[k], ind, depth, origin);
            Open(r, held) == Open(s, held) + (if |r.launches| > |s.launches| then {|s.launches|} else {}) && HeldOk(r, held)
  {
    OfferPending(e, s, ind, depth, origin, k);
    var r := Offer(e, s, e.collectors[k], ind, depth, origin);
    UnionSwap(s.pending.Keys, if |r.launches| > |s.launches| then {|s.launches|} else {}, held);
  }

  lemma UnionSwap(a: set<nat>, b: set<nat>, c: set<nat>)
    ensures (a + b) + c == (a + c) + b
  {
  }

  lemma TimesNext(n: int, c: int)
    ensures c * (n + 1) == c * n + c && (n + 1) * c == n * c + c
  {
  }

  lemma {:induction false} ScheduleAccounts(e: Setup, s: State, ind: Indicator, depth: U8, origin: Origin, k: nat, held: set<nat>)
    requires Ledger(e, s) && Accounts(s, Open(s, held)) && HeldOk(s, held)
    requires Scheduling(e, s, ind, depth, origin, k)
    ensures var r := Schedule(e, s, ind, depth, origin, k); Accounts(r, Open(r, held)) && HeldOk(r, held)
    decreases |e.collectors| - k
  {
    if k < |e.collectors| {
      OfferLedger(e, s, ind, depth, origin, k);
      OfferOpen(e, s, ind, depth, origin, k, held);
      ScheduleAccounts(e, Offer(e, s, e.collectors[k], ind, depth, origin), ind, depth, origin, k + 1, held);
    }
  }

  lemma {:induction false} ScheduleConsidered(e: Setup, s: State, ind: Indicator, depth: U8, origin: Origin, k: nat)
    requires Ledger(e, s) && Considered(e, s) && Covered(e, s, ind, k) && Scheduling(e, s, ind, depth, origin, k)
    ensures var r := Schedule(e, s, ind, depth, origin, k); Considered(e, r) && Covered(e, r, ind, |e.collectors|)
    decreases |e.collectors| - k
  {
    if k < |e.collectors| {
      OfferLedger(e, s, ind, depth, origin, k);
      OfferConsidered(e, s, ind, depth, origin, k);
      ScheduleConsidered(e, Offer(e, s, e.collectors[k], ind, depth, origin), ind, depth, origin, k + 1);
    }
  }

  lemma {:induction false} ScheduleBooks(e: Setup, s: State, ind: Indicator, depth: U8, origin: Origin, k: nat, carried: nat)
    requires k <= |e.collectors| && Books(s, carried)
    ensures Books(Schedule(e, s, ind, depth, origin, k), carried)
    decreases |e.collectors| - k
  {
    if k < |e.collectors| {
      OfferBooks(e, s, ind, depth, origin, k, carried);
      ScheduleBooks(e, Offer(e, s, e.collectors[k], ind, depth, origin), ind, depth, origin, k + 1, carried);
    }
  }

  lemma {:induction false} ScheduleBounds(e: Setup, s: State, ind: Indicator, depth: U8, origin: Origin, k: nat, quota: nat)
    requires Ledger(e, s) && Scheduling(e, s, ind, depth, origin, k) && Bounds(e, s, |e.collectors| - k, quota)
    ensures Bounds(e, Schedule(e, s, ind, depth, origin, k), 0, quota)
    decreases |e.collectors| - k
  {
    if k < |e.collectors| {
      OfferLedger(e, s, ind, depth, origin, k);
      OfferBounds(e, s, ind, depth, origin, k, |e.collectors| - k, quota);
      ScheduleBounds(e, Offer(e, s, e.collectors[k], ind, depth, origin), ind, depth, origin, k + 1, quota);
    }
  }

  // ----------------------------------------------------------------- pivots

  /** Pivots found by run `i` are about to be followed at this depth. */
  ghost predicate Following(e: Setup, s: State, depth: U8, i: nat)
  {
    && DistinctIds(e.collectors) && i < |s.launches| && depth == Deeper(s.launches[i].depth)
  }

  /** The state in which a followed pivot is offered to the collectors. */
  function Entered(s: State, pivot: Indicator): (r: State)
  {
    s.(visited := s.visited + {pivot}, pivotsFollowed := s.pivotsFollowed + 1)
  }

  predicate Enters(e: Setup, s: State, pivot: Indicator, depth: U8)
  {
    pivot !in s.visited && pivot !in s.dropped && !Rejected(e, s, pivot, depth)
  }

  lemma EnteredReady(e: Setup, s: State, pivot: Indicator, depth: U8, i: nat)
    requires Frontier(e, s) && Ledger(e, s) && Following(e, s, depth, i) && Enters(e, s, pivot, depth)
    ensures var r := Entered(s, pivot);
            Frontier(e, r) && Ledger(e, r) && Scheduling(e, r, pivot, depth, FromRun(i), 0)
  {
    var r := Entered(s, pivot);
    assert LaunchOk(e, s, i);
    forall j | 0 <= j < |r.launches| ensures LaunchOk(e, r, j) {
      assert LaunchOk(e, s, j);
    }
    forall j | 0 <= j < |r.launches| ensures r.launches[j].indicator != pivot {
      assert LaunchOk(e, s, j);
    }
  }

  lemma FollowFrontier(e: Setup, s: State, pivot: Indicator, depth: U8, i: nat)
    requires Frontier(e, s) && Ledger(e, s) && Following(e, s, depth, i)
    ensures var r := Follow(e, s, pivot, depth, FromRun(i));
      && Frontier(e, r) && Ledger(e, r) && Following(e, r, depth, i)
      && s.launches <= r.launches && s.pending.Keys <= r.pending.Keys && r.store.target == s.store.target
      && s.visited <= r.visited
  {
    if Enters(e, s, pivot, depth) {
      EnteredReady(e, s, pivot, depth, i);
      ScheduleFrame(e, Entered(s, pivot), pivot, depth, FromRun(i), 0);
      ScheduleLedger(e, Entered(s, pivot), pivot, depth, FromRun(i), 0);
    } else {
      var r := Follow(e, s, pivot, depth, FromRun(i));
      assert r.store == s.store && r.launches == s.launches && r.pending == s.pending && r.visited == s.visited;
      SameHistory(e, s, r);
    }
  }

  lemma SameHistory(e: Setup, s: State, r: State)
    requires Ledger(e, s)
    requires r.store.target == s.store.target && r.launches == s.launches
    requires forall id :: id in r.pending ==> id in s.pending && r.pending[id] == s.pending[id]
    requires r.visited == s.visited && r.sourceRuns == s.sourceRuns
    ensures Ledger(e, r)
  {
    forall j | 0 <= j < |r.launches| ensures LaunchOk(e, r, j) {
      assert LaunchOk(e, s, j);
    }
  }

  lemma FollowAccounts(e: Setup, s: State, pivot: Indicator, depth: U8, i: nat, held: set<nat>)
    requires Frontier(e, s) && Ledger(e, s) && Following(e, s, depth, i)
    requires Accounts(s, Open(s, held)) && HeldOk(s, held)
    ensures var r := Follow(e, s, pivot, depth, FromRun(i)); Accounts(r, Open(r, held)) && HeldOk(r, held)
  {
    var entered := Entered(s, pivot);
    if Enters(e, s, pivot, depth) {
      EnteredReady(e, s, pivot, depth, i);
      assert Open(entered, held) == Open(s, held);
      SameAccounts(s, entered, Open(s, held));
      ScheduleAccounts(e, entered, pivot, depth, FromRun(i), 0, held);
    } else {
      var r := Follow(e, s, pivot, depth, FromRun(i));
      assert Open(r, held) == Open(s, held);
      SameAccounts(s, r, Open(s, held));
    }
  }

  lemma SameAccounts(s: State, r: State, open: set<nat>)
    requires Accounts(s, open) && r.launches == s.launches && r.store.sources == s.store.sources
    ensures Accounts(r, open)
  {
    forall x | x in r.store.sources && x.outcome.IsRun() ensures Launched(r, x.source, x.indicator) {
      assert Launched(s, x.source, x.indicator);
    }
  }

  lemma FollowConsidered(e: Setup, s: State, pivot: Indicator, depth: U8, i: nat)
    requires Frontier(e, s) && Ledger(e, s) && Following(e, s, depth, i)
    requires Considered(e, s) && Covered(e, s, pivot, |e.collectors|)
    ensures var r := Follow(e, s, pivot, depth, FromRun(i)); Considered(e, r) && Covered(e, r, pivot, |e.collectors|)
  {
    var entered := Entered(s, pivot);
    if Enters(e, s, pivot, depth) {
      EnteredReady(e, s, pivot, depth, i);
      SameConsidered(e, s, entered);
      ScheduleConsidered(e, entered, pivot, depth, FromRun(i), 0);
    } else {
      SameConsidered(e, s, Follow(e, s, pivot, depth, FromRun(i)));
    }
  }

  lemma SameConsidered(e: Setup, s: State, r: State)
    requires Considered(e, s) && r.launches == s.launches && r.considered == s.considered
    requires r.store.sources == s.store.sources && r.store.target == s.store.target && s.visited <= r.visited
    ensures Considered(e, r)
  {
    forall src ensures LaunchedSource(r, src) <==> LaunchedSource(s, src) {
    }
    forall k | 0 <= k < |e.collectors| && e.collectors[k].id in r.considered
      ensures exists v :: v in r.visited && Takes(e.collectors[k], v, r.store.target)
    {
      var v :| v in s.visited && Takes(e.collectors[k], v, s.store.target);
      assert v in r.visited;
    }
  }

  lemma FollowBooks(e: Setup, s: State, pivot: Indicator, depth: U8, i: nat, carried: nat)
    requires Books(s, carried)
    ensures Books(Follow(e, s, pivot, depth, FromRun(i)), carried)
  {
    if Enters(e, s, pivot, depth) {
      ScheduleBooks(e, Entered(s, pivot), pivot, depth, FromRun(i), 0, carried);
    }
  }

  /** The measure of the join loop: followable pivots left, each worth one run of
      every collector, and the runs under way. */
  function Measure(e: Setup, s: State): (n: nat)
  {
    RunsLeft(1 + e.limits.maxEntities - |s.visited|, |e.collectors|) + |s.pending|
  }

  /** `slots` times `collectors`, or none. */
  function RunsLeft(slots: int, collectors: nat): (n: nat)
    decreases slots
  {
    if slots <= 0 then 0 else collectors + RunsLeft(slots - 1, collectors)
  }

  lemma {:induction false} RunsLeftProduct(slots: nat, collectors: nat)
    ensures RunsLeft(slots, collectors) == slots * collectors
    decreases slots
  {
    if slots > 0 {
      RunsLeftProduct(slots - 1, collectors);
      TimesNext(slots - 1, collectors);
    }
  }

  lemma FollowBounds(e: Setup, s: State, pivot: Indicator, depth: U8, i: nat, quota: nat)
    requires Frontier(e, s) && Ledger(e, s) && Following(e, s, depth, i)
    requires Bounds(e, s, 0, quota) && quota > 0
    ensures Bounds(e, Follow(e, s, pivot, depth, FromRun(i)), 0, quota - 1)
  {
    if Enters(e, s, pivot, depth) {
      EnteredReady(e, s, pivot, depth, i);
      EnteredBounds(e, s, pivot, quota);
      ScheduleBounds(e, Entered(s, pivot), pivot, depth, FromRun(i), 0, quota - 1);
    }
  }

  lemma EnteredBounds(e: Setup, s: State, pivot: Indicator, quota: nat)
    requires Bounds(e, s, 0, quota) && quota > 0 && pivot !in s.visited
    ensures Bounds(e, Entered(s, pivot), |e.collectors|, quota - 1)
  {
    assert |Entered(s, pivot).visited| == |s.visited| + 1;
    TimesNext(|s.visited|, |e.collectors|);
  }

  /** Following a pivot does not raise the measure: it trades one followable pivot
      for at most one run of every collector. */
  lemma FollowMeasure(e: Setup, s: State, pivot: Indicator, depth: U8, i: nat)
    ensures Measure(e, Follow(e, s, pivot, depth, FromRun(i))) <= Measure(e, s)
  {
    if Enters(e, s, pivot, depth) {
      ScheduleFrame(e, Entered(s, pivot), pivot, depth, FromRun(i), 0);
      OneSlotLess(e, s, Schedule(e, Entered(s, pivot), pivot, depth, FromRun(i), 0), pivot);
    }
  }

  lemma OneSlotLess(e: Setup, s: State, r: State, pivot: Indicator)
    requires pivot !in s.visited && r.visited == s.visited + {pivot} && |s.visited| <= e.limits.maxEntities
    requires |r.pending| <= |s.pending| + |e.collectors|
    ensures Measure(e, r) <= Measure(e, s)
  {
    OneMore(s.visited, pivot);
    SlotTaken(e, s, r);
  }

  lemma SlotTaken(e: Setup, s: State, r: State)
    requires |r.visited| == |s.visited| + 1 && |s.visited| <= e.limits.maxEntities
    requires |r.pending| <= |s.pending| + |e.collectors|
    ensures Measure(e, r) <= Measure(e, s)
  {
    OneSlot(1 + e.limits.maxEntities - |s.visited|, |e.collectors|, |s.pending|, |r.pending|);
  }

  lemma OneMore(visited: set<Indicator>, pivot: Indicator)
    requires pivot !in visited
    ensures |visited + {pivot}| == |visited| + 1
  {
  }

  lemma OneSlot(slots: int, collectors: nat, before: nat, after: nat)
    requires slots > 0 && after <= before + collectors
    ensures RunsLeft(slots - 1, collectors) + after <= RunsLeft(slots, collectors) + before
  {
  }

  lemma {:induction false} FollowAllMeasure(e: Setup, s: State, pivots: seq<Indicator>, depth: U8, i: nat)
    ensures Measure(e, FollowAll(e, s, pivots, depth, FromRun(i))) <= Measure(e, s)
    decreases |pivots|
  {
    if pivots != [] {
      FollowMeasure(e, s, pivots[0], depth, i);
      FollowAllMeasure(e, Follow(e, s, pivots[0], depth, FromRun(i)), pivots[1..], depth, i);
    }
  }

  /** All facts about the state while run `i` hands over its pivots. */
  lemma {:induction false} FollowAllFrontier(e: Setup, s: State, pivots: seq<Indicator>, depth: U8, i: nat)
    requires Frontier(e, s) && Ledger(e, s) && Following(e, s, depth, i)
    ensures var r := FollowAll(e, s, pivots, depth, FromRun(i));
      && Frontier(e, r) && Ledger(e, r) && s.launches <= r.launches && r.store.target == s.store.target
      && s.visited <= r.visited && s.pending.Keys <= r.pending.Keys
    decreases |pivots|
  {
    if pivots != [] {
      FollowFrontier(e, s, pivots[0], depth, i);
      FollowAllFrontier(e, Follow(e, s, pivots[0], depth, FromRun(i)), pivots[1..], depth, i);
    }
  }

  lemma {:induction false} FollowAllAccounts(e: Setup, s: State, pivots: seq<Indicator>, depth: U8, i: nat, held: set<nat>)
    requires Frontier(e, s) && Ledger(e, s) && Following(e, s, depth, i)
    requires Accounts(s, Open(s, held)) && HeldOk(s, held)
    ensures var r := FollowAll(e, s, pivots, depth, FromRun(i)); Accounts(r, Open(r, held))
    decreases |pivots|
  {
    if pivots != [] {
      FollowFrontier(e, s, pivots[0], depth, i);
      FollowAccounts(e, s, pivots[0], depth, i, held);
      FollowAllAccounts(e, Follow(e, s, pivots[0], depth, FromRun(i)), pivots[1..], depth, i, held);
    }
  }

  lemma {:induction false} FollowAllConsidered(e: Setup, s: State, pivots: seq<Indicator>, depth: U8, i: nat)
    requires Frontier(e, s) && Ledger(e, s) && Following(e, s, depth, i)
    requires Considered(e, s) && Covered(e, s, s.store.target, |e.collectors|)
    ensures var r := FollowAll(e, s, pivots, depth, FromRun(i));
            Considered(e, r) && Covered(e, r, r.store.target, |e.collectors|)
    decreases |pivots|
  {
    if pivots != [] {
      FollowFrontier(e, s, pivots[0], depth, i);
      FollowConsidered(e, s, pivots[0], depth, i);
      FollowAllConsidered(e, Follow(e, s, pivots[0], depth, FromRun(i)), pivots[1..], depth, i);
    }
  }

  lemma {:induction false} FollowAllBooks(e: Setup, s: State, pivots: seq<Indicator>, depth: U8, i: nat, carried: nat)
    requires Books(s, carried)
    ensures Books(FollowAll(e, s, pivots, depth, FromRun(i)), carried)
    decreases |pivots|
  {
    if pivots != [] {
      FollowBooks(e, s, pivots[0], depth, i, carried);
      FollowAllBooks(e, Follow(e, s, pivots[0], depth, FromRun(i)), pivots[1..], depth, i, carried);
    }
  }

  lemma {:induction false} FollowAllBounds(e: Setup, s: State, pivots: seq<Indicator>, depth: U8, i: nat, quota: nat)
    requires Frontier(e, s) && Ledger(e, s) && Following(e, s, depth, i)
    requires Bounds(e, s, 0, quota) && |pivots| <= quota
    ensures Bounds(e, FollowAll(e, s, pivots, depth, FromRun(i)), 0, 0)
    decreases |pivots|
  {
    if pivots != [] {
      FollowFrontier(e, s, pivots[0], depth, i);
      FollowBounds(e, s, pivots[0], depth, i, quota);
      FollowAllBounds(e, Follow(e, s, pivots[0], depth, FromRun(i)), pivots[1..], depth, i, quota - 1);
    }
  }
}
