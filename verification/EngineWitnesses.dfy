/** Runs that show which conditions the results about the engine need: when the
    order of completions decides, and where the documented rules and the code
    differ. Every run starts at a target and follows what the collectors find. */
module EngineWitnesses {
  import opened Results
  import opened Numerals
  import opened Model
  import opened Investigation
  import opened EngineSpec
  import opened EngineInvariants
  import opened EngineSteps
  import opened EngineTheorems
  import opened EngineOrder
  import opened EngineFindings
  import opened EngineTrails
  import opened EngineConfluence
  import opened EngineForks
  import opened EngineReport
  import opened EngineHistory

  // -------------------------------------------------------- limits without pivots

  lemma {:induction false} FollowAllRejects(e: Setup, s: State, pivots: seq<Indicator>, depth: U8, i: nat)
    requires depth > 0 && s.visited != {} && (e.limits.maxDepth == 0 || e.limits.maxEntities == 0)
    ensures var r := FollowAll(e, s, pivots, depth, FromRun(i)); r.visited == s.visited && r.launches == s.launches
    decreases |pivots|
  {
    if pivots != [] {
      assert |s.visited| >= 1;
      FollowAllRejects(e, Follow(e, s, pivots[0], depth, FromRun(i)), pivots[1..], depth, i);
    }
  }

  lemma {:induction false} PlayRejects(e: Setup, s: State, events: seq<Event>)
    requires s.visited != {} && (e.limits.maxDepth == 0 || e.limits.maxEntities == 0)
    ensures Play(e, s, events).visited == s.visited && Play(e, s, events).launches == s.launches
    decreases |events|
  {
    if events != [] {
      var r := Step(e, s, events[0]);
      assert r.visited == s.visited && r.launches == s.launches by {
        match events[0]
        case Completed(id, end, from, to) =>
          if id in s.pending && end.Collected? {
            CompleteParts(e, s, id, end, from, to);
            FollowAllRejects(e, Handed(s, id, end.collection), Examined(end.collection.pivots), Deeper(s.pending[id].depth), id);
          }
        case Crashed(id) =>
        case Deadline(order) => DrainFrame(Struck(s), order, e.clock(s.ticks));
      }
      PlayRejects(e, r, events[1..]);
    }
  }

  lemma {:induction false} DrainFrame(s: State, order: seq<nat>, now: Timestamp)
    ensures Drain(s, order, now).visited == s.visited && Drain(s, order, now).launches == s.launches
    decreases |order|
  {
    if order != [] { DrainFrame(CutOff(s, order[0], now), order[1..], now); }
  }

  /** With `max_depth` or `max_entities` zero the order of events never matters:
      only the target is visited and only its runs are started, whatever the
      collectors return and however their runs end. */
  lemma OrderNeverMatters(e: Setup, store: Store, events: seq<Event>)
    requires e.limits.maxDepth == 0 || e.limits.maxEntities == 0
    ensures var s := Reached(e, store, events);
      s.visited == {store.target} && s.launches == Begin(e, store).launches
  {
    ScheduleFrame(e, Blank(store), store.target, 0, FromTarget, 0);
    PlayRejects(e, Begin(e, store), events);
  }

  // ------------------------------------------------------------ the last free place

  /** The identifier of the n-th collector. */
  function Tag(n: nat): (source: SourceId) { "c" + Numeral(n, 10) }

  lemma TagsApart(m: nat, n: nat)
    requires Tag(m) == Tag(n)
    ensures m == n
  {
    assert Tag(m)[1..] == Numeral(m, 10) && Tag(n)[1..] == Numeral(n, 10);
    NumeralInjective(m, n, 10);
  }

  /** A public address. */
  function Target(): (v: Indicator) { Ipv4(0x0808_0808) }

  const SITE: string := "https://example.org/"

  function Page(n: nat): (v: Indicator) { Url(SITE + Tag(n)) }

  lemma PagesApart(m: nat, n: nat)
    requires Page(m) == Page(n)
    ensures m == n
  {
    assert Page(m).url[|SITE|..] == Tag(m) && Page(n).url[|SITE|..] == Tag(n);
    TagsApart(m, n);
  }

  predicate Anything(v: Indicator) { true }

  predicate Always(t: nat) { true }

  function Midnight(t: nat): (now: Timestamp) { 0 }

  function FanCollector(k: nat): (c: Collector)
  {
    Collector(Tag(k), Anything, false, Always)
  }

  function FanCollectors(n: nat): (r: seq<Collector>)
    ensures |r| == n && forall k :: 0 <= k < n ==> r[k] == FanCollector(k)
  {
    if n == 0 then [] else FanCollectors(n - 1) + [FanCollector(n - 1)]
  }

  /** One more collector on the target than pivots may be followed. */
  function Fan(limits: PivotLimits): (e: Setup)
  {
    Setup(FanCollectors(limits.maxEntities + 1), limits, Anything, Midnight)
  }

  /** Each finds the page named after it. */
  function PageOf(source: SourceId, v: Indicator): (pivots: seq<Indicator>)
  {
    if v == Target() then [Url(SITE + source)] else []
  }

  function TargetStore(): (s: Store) { Store(Target(), 0, None, [], [], [], []) }

  lemma FanReady(limits: PivotLimits)
    ensures Steady(Fan(limits)) && Ready(Fan(limits), TargetStore())
  {
    var cs := Fan(limits).collectors;
    forall i, j | 0 <= i < j < |cs| ensures cs[i].id != cs[j].id {
      if cs[i].id == cs[j].id { TagsApart(i, j); }
    }
  }

  /** Run `i` waits on the target, started by the collector at its position. */
  ghost predicate Waits(s: State, i: nat)
  {
    && i in s.pending && s.pending[i].depth == 0 && s.pending[i].indicator == Target()
    && s.pending[i].source == Tag(i)
  }

  lemma FanOffer(limits: PivotLimits, s: State, k: nat)
    requires k <= limits.maxEntities && |s.launches| == k && forall i :: 0 <= i < k ==> Waits(s, i)
    ensures var r := Offer(Fan(limits), s, Fan(limits).collectors[k], Target(), 0, FromTarget);
      |r.launches| == k + 1 && forall i :: 0 <= i < k + 1 ==> Waits(r, i)
  {
    var c := Fan(limits).collectors[k];
    assert c == FanCollector(k);
    var r := Offer(Fan(limits), s, c, Target(), 0, FromTarget);
    forall i | 0 <= i < k + 1 ensures Waits(r, i) {
      if i < k { assert Waits(s, i); }
    }
  }

  lemma {:induction false} FanSchedule(limits: PivotLimits, s: State, k: nat)
    requires k <= limits.maxEntities + 1 && |s.launches| == k && forall i :: 0 <= i < k ==> Waits(s, i)
    ensures forall i :: 0 <= i <= limits.maxEntities ==>
              Waits(Schedule(Fan(limits), s, Target(), 0, FromTarget, k), i)
    decreases limits.maxEntities + 1 - k
  {
    if k <= limits.maxEntities {
      FanOffer(limits, s, k);
      FanSchedule(limits, Offer(Fan(limits), s, Fan(limits).collectors[k], Target(), 0, FromTarget), k + 1);
    }
  }

  function FanEvents(k: nat): (r: seq<Event>)
  {
    if k == 0 then [] else FanEvents(k - 1) + [FanEvent(k - 1)]
  }

  function FanEvent(id: nat): (event: Event)
  {
    Found(JustPivots([Page(id)]), 0, 0, id)
  }

  /** `k` pages are followed, those of the later runs are not yet found. */
  ghost predicate FanState(e: Setup, s: State, k: nat)
  {
    && e.limits.maxDepth >= 1 && e.investigable == Anything
    && s.dropped == {} && |s.visited| == k + 1
    && (forall i :: k <= i <= e.limits.maxEntities ==> Waits(s, i))
    && (forall i :: k <= i <= e.limits.maxEntities ==> Page(i) !in s.visited)
  }

  lemma FanBegins(limits: PivotLimits)
    requires limits.maxDepth >= 1
    ensures FanState(Fan(limits), Begin(Fan(limits), TargetStore()), 0)
  {
    FanSchedule(limits, Blank(TargetStore()), 0);
    ScheduleFrame(Fan(limits), Blank(TargetStore()), Target(), 0, FromTarget, 0);
  }

  lemma FanOffers(e: Setup, s: State, k: nat, id: nat)
    requires FanState(e, s, k) && k <= id <= e.limits.maxEntities
    ensures Offers(e, s, id, JustPivots([Page(id)]), Page(id))
    ensures Answers(PageOf, s, FanEvent(id)) && Enabled(s, FanEvent(id))
  {
    assert Waits(s, id);
  }

  lemma FanStep(e: Setup, s: State, k: nat)
    requires Resting(e, s) && FanState(e, s, k) && k < e.limits.maxEntities
    ensures FanState(e, Step(e, s, FanEvent(k)), k + 1)
  {
    var r := Step(e, s, FanEvent(k));
    FanOffers(e, s, k, k);
    PivotDecided(e, s, k, JustPivots([Page(k)]), Page(k), 0, 0);
    forall i | k + 1 <= i <= e.limits.maxEntities ensures Waits(r, i) {
      assert Waits(s, i);
      OtherWaits(e, s, k, i);
    }
    forall i | k + 1 <= i <= e.limits.maxEntities ensures Page(i) !in r.visited {
      if Page(i) == Page(k) { PagesApart(i, k); }
    }
  }

  lemma OtherWaits(e: Setup, s: State, id: nat, i: nat)
    requires Resting(e, s) && id in s.pending && Waits(s, i) && i != id
    ensures Waits(Step(e, s, FanEvent(id)), i)
  {
    OtherStays(e, s, id, i, JustPivots([Page(id)]), 0, 0);
  }

  lemma {:induction false} FanRun(limits: PivotLimits, k: nat)
    requires limits.maxDepth >= 1 && k <= limits.maxEntities
    ensures var e, b := Fan(limits), Begin(Fan(limits), TargetStore());
      Follows(e, PageOf, b, FanEvents(k)) && FanState(e, Play(e, b, FanEvents(k)), k)
  {
    FanReady(limits);
    if k == 0 {
      FanBegins(limits);
    } else {
      FanRun(limits, k - 1);
      FanAdvances(limits, Fan(limits), k - 1, Play(Fan(limits), Begin(Fan(limits), TargetStore()), FanEvents(k - 1)));
    }
  }

  lemma FanAdvances(limits: PivotLimits, e: Setup, k: nat, s: State)
    requires e == Fan(limits) && Ready(e, TargetStore()) && k < limits.maxEntities
    requires var b := Begin(e, TargetStore());
      Follows(e, PageOf, b, FanEvents(k)) && s == Play(e, b, FanEvents(k)) && FanState(e, s, k)
    ensures var b := Begin(e, TargetStore());
      Follows(e, PageOf, b, FanEvents(k + 1)) && FanState(e, Play(e, b, FanEvents(k + 1)), k + 1)
  {
    ReachedRests(e, TargetStore(), FanEvents(k));
    FanOffers(e, s, k, k);
    FanStep(e, s, k);
    OneFollows(e, PageOf, s, FanEvent(k));
    FollowsOn(e, PageOf, Begin(e, TargetStore()), FanEvents(k), [FanEvent(k)]);
  }

  /** In order: the last collector's page finds no place. */
  lemma LastComesLate(limits: PivotLimits) returns (events: seq<Event>)
    requires limits.maxDepth >= 1
    ensures WholeRun(Fan(limits), TargetStore(), PageOf, events)
    ensures Page(limits.maxEntities) !in Reached(Fan(limits), TargetStore(), events).visited
  {
    FanReady(limits);
    FanRun(limits, limits.maxEntities);
    events := FullStays(Fan(limits), TargetStore(), PageOf, FanEvents(limits.maxEntities), Page(limits.maxEntities));
  }

  /** Once all places are taken, what is not visited never will be. */
  lemma FullStays(e: Setup, store: Store, found: Finds, before: seq<Event>, v: Indicator) returns (events: seq<Event>)
    requires Steady(e) && Ready(e, store) && Follows(e, found, Begin(e, store), before)
    requires |Reached(e, store, before).visited| == e.limits.maxEntities + 1 && v !in Reached(e, store, before).visited
    ensures WholeRun(e, store, found, events) && v !in Reached(e, store, events).visited
  {
    events := PlayedOut(e, store, found, before);
    var s, t := Reached(e, store, before), Reached(e, store, events);
    PivotsWithinLimits(e, store, events);
    SubsetFull(s.visited, t.visited);
  }

  lemma SubsetFull<T>(a: set<T>, b: set<T>)
    requires a <= b && |b| <= |a|
    ensures a == b
  {
    assert b == a + (b - a) && |b| == |a| + |b - a|;
  }

  /** First: it is followed. */
  lemma LastComesFirst(limits: PivotLimits) returns (events: seq<Event>)
    requires limits.maxDepth >= 1 && limits.maxEntities >= 1
    ensures WholeRun(Fan(limits), TargetStore(), PageOf, events)
    ensures Page(limits.maxEntities) in Reached(Fan(limits), TargetStore(), events).visited
  {
    FanReady(limits);
    FanBegins(limits);
    LastFirst(Fan(limits), Begin(Fan(limits), TargetStore()), limits.maxEntities);
    OneFollows(Fan(limits), PageOf, Begin(Fan(limits), TargetStore()), FanEvent(limits.maxEntities));
    events := PlayedOut(Fan(limits), TargetStore(), PageOf, [FanEvent(limits.maxEntities)]);
  }

  lemma LastFirst(e: Setup, s: State, n: nat)
    requires FanState(e, s, 0) && n == e.limits.maxEntities >= 1
    ensures Enabled(s, FanEvent(n)) && Answers(PageOf, s, FanEvent(n))
    ensures Page(n) in Step(e, s, FanEvent(n)).visited
  {
    FanOffers(e, s, 0, n);
    PivotDecided(e, s, n, JustPivots([Page(n)]), Page(n), 0, 0);
  }

  /** For all other limits the order does matter: there are collectors, what they
      find, and two whole runs with these findings that visit different
      indicators. */
  lemma OrderMattersOtherwise(limits: PivotLimits)
    returns (e: Setup, store: Store, found: Finds, one: seq<Event>, other: seq<Event>)
    requires !(limits.maxDepth == 0 || limits.maxEntities == 0)
    ensures e.limits == limits && WholeRun(e, store, found, one) && WholeRun(e, store, found, other)
    ensures Reached(e, store, one).visited != Reached(e, store, other).visited
  {
    e, store, found := Fan(limits), TargetStore(), PageOf;
    one := LastComesLate(limits);
    other := LastComesFirst(limits);
  }

  // ------------------------------------------------------------ the last free hop

  const CHAIN: SourceId := "chain"
  const DIRECT: SourceId := "direct"

  /** One collector for everything, and one that runs on the target alone. */
  function Ladder(limits: PivotLimits): (e: Setup)
  {
    Setup([Collector(CHAIN, Anything, true, Always), Collector(DIRECT, Anything, false, Always)], limits,
          Anything, Midnight)
  }

  /** The address after this one, up to `Link(last)`. */
  function NextLink(last: nat, v: Indicator): (r: seq<Indicator>)
    requires last <= 256
  {
    if v.Ipv4? && 0x0808_0800 <= v.v4 < 0x0808_0800 + last then [Ipv4(v.v4 + 1)] else []
  }

  /** The first collector finds the next address, the second the last at once. */
  function LadderFinds(last: nat, source: SourceId, v: Indicator): (r: seq<Indicator>)
    requires last <= 256
  {
    if source == CHAIN then NextLink(last, v) else if v == Link(0) then [Link(last)] else []
  }

  function LadderFound(last: nat): (found: Finds)
    requires last <= 256
  {
    (source, v) => LadderFinds(last, source, v)
  }

  lemma LadderReady(limits: PivotLimits)
    ensures Steady(Ladder(limits)) && Ready(Ladder(limits), ChainStore())
  {
  }

  /** One hop through the second collector. */
  function Straight(n: nat): (t: seq<Hop>)
    requires n <= 256
  {
    [Hop(1, Link(0), Link(n))]
  }

  /** The first `n` hops through the first collector. */
  function Around(n: nat): (t: seq<Hop>)
    requires n <= 256
    ensures |t| == n && forall i :: 0 <= i < n ==> t[i] == Hop(0, Link(i), Link(i + 1))
  {
    if n == 0 then [] else Around(n - 1) + [Hop(0, Link(n - 1), Link(n))]
  }

  lemma StraightLeads(limits: PivotLimits, n: nat)
    requires 1 <= n <= 256
    ensures LeadsTo(Ladder(limits), LadderFound(n), Link(0), Straight(n), Link(n))
  {
    var e, h := Ladder(limits), Hop(1, Link(0), Link(n));
    assert LadderFinds(n, DIRECT, Link(0)) == [Link(n)] && [] + [h] == [h];
    assert Reachable(e, LadderFound(n), Link(0), 1, Link(0), Link(n));
    TrailSnoc(e, LadderFound(n), Link(0), [], h);
  }

  lemma AroundNew(limits: PivotLimits, last: nat, n: nat)
    requires n < last <= 256
    ensures Unseen(Ladder(limits), LadderFound(last), Link(0), Around(n), Link(n + 1))
  {
    var e, t := Ladder(limits), Around(n);
    forall i | 0 <= i < |t| ensures !HopFinds(e, LadderFound(last), t[i], Link(n + 1)) {
      assert LadderFinds(last, CHAIN, Link(i)) == [Link(i + 1)];
    }
  }

  lemma {:induction false} AroundLeads(limits: PivotLimits, last: nat, n: nat)
    requires n <= last <= 256
    ensures LeadsTo(Ladder(limits), LadderFound(last), Link(0), Around(n), Link(n))
  {
    if n > 0 {
      AroundLeads(limits, last, n - 1);
      AroundNew(limits, last, n - 1);
      assert LadderFinds(last, CHAIN, Link(n - 1)) == [Link(n)];
      assert Reachable(Ladder(limits), LadderFound(last), Link(0), 0, Link(n - 1), Link(n));
      TrailSnoc(Ladder(limits), LadderFound(last), Link(0), Around(n - 1), Hop(0, Link(n - 1), Link(n)));
    }
  }

  function Links(n: nat): (r: set<Indicator>)
    requires n <= 256
  {
    set i | 0 <= i <= n :: Link(i)
  }

  lemma {:induction false} LinksSize(n: nat)
    requires n <= 256
    ensures |Links(n)| == n + 1
  {
    if n == 0 {
      assert Links(0) == {Link(0)};
    } else {
      LinksSize(n - 1);
      assert Links(n) == Links(n - 1) + {Link(n)} && Link(n) !in Links(n - 1);
    }
  }

  lemma LinksClosed(limits: PivotLimits, n: nat)
    requires n <= 256
    ensures Closed(Ladder(limits), LadderFound(n), Link(0), Links(n))
    ensures forall source, v :: |LadderFound(n)(source, v)| <= 1
  {
    var e := Ladder(limits);
    assert Link(0) in Links(n);
    forall k, v, p | 0 <= k < |e.collectors| && v in Links(n) && Reachable(e, LadderFound(n), Link(0), k, v, p)
      ensures p in Links(n)
    {
      assert p in LadderFinds(n, e.collectors[k].id, v);
      if e.collectors[k].id == CHAIN {
        assert p == Link(v.v4 + 1 - 0x0808_0800);
      } else {
        assert p == Link(n);
      }
    }
  }

  lemma LadderPlaces(limits: PivotLimits)
    requires 1 <= limits.maxDepth <= 254 && limits.maxDepth < limits.maxEntities
    ensures var n := limits.maxDepth + 1;
      && Closed(Ladder(limits), LadderFound(n), Link(0), Links(n)) && |Links(n)| <= 1 + limits.maxEntities
      && Places(Ladder(limits), LadderFound(n), Link(0), Links(n))
  {
    var n := limits.maxDepth + 1;
    LinksClosed(limits, n);
    LinksSize(n);
    ClosedPlaces(Ladder(limits), LadderFound(n), Link(0), Links(n));
  }

  lemma LadderForks(limits: PivotLimits)
    requires 1 <= limits.maxDepth <= 254
    ensures var e, n := Ladder(limits), limits.maxDepth + 1;
      FoundNear(e, LadderFound(n), Link(0), Link(n)) && FoundFar(e, LadderFound(n), Link(0), Link(n))
  {
    var e, n := Ladder(limits), limits.maxDepth + 1;
    StraightLeads(limits, n);
    AroundLeads(limits, n, n);
    assert Near(e, Straight(n)) && Far(e, Around(n));
  }

  /** Room for the number of pivots is not enough: for every depth limit from 1 to
      254 and any number of pivots above it there are collectors whose closed set
      fits that number, and two whole runs that visit different indicators. In the
      first an indicator found on the target itself stays rejected to the end, with
      places free and the depth limit not reached. */
  lemma DepthMattersToo(limits: PivotLimits)
    returns (e: Setup, store: Store, found: Finds, room: set<Indicator>, v: Indicator, one: seq<Event>, other: seq<Event>)
    requires 1 <= limits.maxDepth <= 254 && limits.maxDepth < limits.maxEntities
    ensures e.limits == limits && WholeRun(e, store, found, one) && WholeRun(e, store, found, other)
    ensures Closed(e, found, store.target, room) && |room| <= 1 + limits.maxEntities
    ensures v in Reached(e, store, one).dropped && v in Reached(e, store, other).visited
    ensures |Reached(e, store, one).visited| - 1 < limits.maxEntities
    ensures exists src :: Launched(Reached(e, store, one), src, store.target) && v in found(src, store.target)
  {
    var n := limits.maxDepth + 1;
    e, store, found, room, v := Ladder(limits), ChainStore(), LadderFound(n), Links(n), Link(n);
    LadderReady(limits);
    LadderPlaces(limits);
    LadderForks(limits);
    other, one := OrderDecides(e, store, found, room, v);
    PlaceFree(e, store, found, room, one, v);
    DirectStarted(e, store, found, one);
    assert LadderFinds(n, DIRECT, Link(0)) == [v];
  }

  lemma DirectStarted(e: Setup, store: Store, found: Finds, events: seq<Event>)
    requires e == Ladder(e.limits) && RunSoFar(e, store, found, events)
    ensures Launched(Reached(e, store, events), DIRECT, store.target)
  {
    ReachedSettles(e, store, found, events);
    assert RunsOn(e.collectors[1], store.target, store.target) && e.collectors[1].id == DIRECT;
  }

  lemma PlaceFree(e: Setup, store: Store, found: Finds, room: set<Indicator>, events: seq<Event>, v: Indicator)
    requires WholeRun(e, store, found, events) && Places(e, found, store.target, room)
    requires Closed(e, found, store.target, room) && v in room && v in Reached(e, store, events).dropped
    ensures |Reached(e, store, events).visited| <= |room| - 1
  {
    WithinAnyClosed(e, store, found, events, room, room);
    PivotsWithinLimits(e, store, events);
    SubsetSize(Reached(e, store, events).visited, room - {v});
  }

  // ------------------------------------------------------- a target-only source

  predicate IsUrl(v: Indicator) { v.Url? }

  /** A source for everything, and one that takes URLs but runs on targets only. */
  function Pair(limits: PivotLimits): (e: Setup)
  {
    Setup([Collector(CHAIN, Anything, true, Always), Collector(DIRECT, IsUrl, false, Always)], limits, Anything, Midnight)
  }

  /** Run `id` of this collector waits on `v`. */
  ghost predicate RunsAt(s: State, id: nat, source: SourceId, v: Indicator, depth: nat)
  {
    && id in s.pending && s.pending[id].source == source && s.pending[id].indicator == v
    && s.pending[id].depth == depth
  }

  function OnePage(source: SourceId, v: Indicator): (pivots: seq<Indicator>)
  {
    if v == Target() then [Page(0)] else []
  }

  lemma PairReady(limits: PivotLimits)
    ensures Steady(Pair(limits)) && Ready(Pair(limits), TargetStore())
  {
  }

  lemma PairBegins(limits: PivotLimits)
    ensures var s := Begin(Pair(limits), TargetStore());
      RunsAt(s, 0, CHAIN, Target(), 0) && s.visited == {Target()} && s.dropped == {}
  {
    var e, b := Pair(limits), Blank(TargetStore());
    var s1 := Offer(e, b, e.collectors[0], Target(), 0, FromTarget);
    var s2 := Offer(e, s1, e.collectors[1], Target(), 0, FromTarget);
    assert Schedule(e, b, Target(), 0, FromTarget, 0) == Schedule(e, s1, Target(), 0, FromTarget, 1);
    assert Schedule(e, s1, Target(), 0, FromTarget, 1) == Schedule(e, s2, Target(), 0, FromTarget, 2) == s2;
  }

  lemma PairFinds(e: Setup, s: State)
    requires e.investigable == Anything && e.limits.maxDepth >= 1 && e.limits.maxEntities >= 1
    requires RunsAt(s, 0, CHAIN, Target(), 0) && s.visited == {Target()} && s.dropped == {}
    ensures Enabled(s, FanEvent(0)) && Answers(OnePage, s, FanEvent(0)) && Page(0) in Step(e, s, FanEvent(0)).visited
  {
    PivotDecided(e, s, 0, JustPivots([Page(0)]), Page(0), 0, 0);
  }

  /** A source is reported as having supported nothing although a followed pivot is
      of a kind it supports: it runs on targets only. */
  lemma UnsupportedThoughSupporting(limits: PivotLimits)
    returns (e: Setup, store: Store, events: seq<Event>, k: nat, v: Indicator)
    requires limits.maxDepth >= 1 && limits.maxEntities >= 1
    ensures e.limits == limits && Ended(e, store, events) && k < |e.collectors|
    ensures v in Reached(e, store, events).visited && e.collectors[k].supports(v)
    ensures UnsupportedStatuses(Report(e, store, events).store.sources, e.collectors[k].id) > 0
  {
    e, store, k, v := Pair(limits), TargetStore(), 1, Page(0);
    var b := Begin(e, store);
    PairReady(limits);
    assert Follows(e, OnePage, b, [FanEvent(0)]) && v in Play(e, b, [FanEvent(0)]).visited by {
      PairBegins(limits);
      PairFinds(e, b);
      OneFollows(e, OnePage, b, FanEvent(0));
    }
    events := PlayedOut(e, store, OnePage, [FanEvent(0)]);
    UnsupportedExactly(e, store, events, k);
  }

  // ----------------------------------------------------- counted but never dropped

  function Copies(n: nat): (r: seq<Indicator>)
    ensures |r| == n && forall i :: 0 <= i < n ==> r[i] == Target()
  {
    if n == 0 then [] else Copies(n - 1) + [Target()]
  }

  function Echo(source: SourceId, v: Indicator): (pivots: seq<Indicator>)
  {
    if v == Target() then Copies(MAX_PIVOT_CANDIDATES + 1) else []
  }

  lemma EchoExcess(s: State, n: nat)
    requires 0 in s.pending && n == MAX_PIVOT_CANDIDATES + 1
    ensures Target() in Excess(s, Found(JustPivots(Copies(n)), 0, 0, 0))
  {
    var pivots := Candidates(s, Found(JustPivots(Copies(n)), 0, 0, 0));
    assert pivots[MAX_PIVOT_CANDIDATES..][0] == Target();
  }

  /** A collector that hands over the target more than a thousand times raises the
      number of candidates not followed above the number of candidates it is
      documented to be. */
  lemma CountedThoughFollowed(limits: PivotLimits) returns (e: Setup, store: Store, events: seq<Event>)
    ensures e.limits == limits && Ended(e, store, events)
    ensures Report(e, store, events).stats.pivotsDropped > |NotFollowed(e, store, events)|
  {
    e, store := Pair(limits), TargetStore();
    var b, event := Begin(e, store), Found(JustPivots(Copies(MAX_PIVOT_CANDIDATES + 1)), 0, 0, 0);
    PairReady(limits);
    PairBegins(limits);
    OneFollows(e, Echo, b, event);
    events := PlayedOut(e, store, Echo, [event]);
    assert events[0] == [event][0];
    EchoExcess(b, MAX_PIVOT_CANDIDATES + 1);
    assert store.target in AllExcess(e, b, events);
    FiguresExactly(e, store, events);
  }
}
