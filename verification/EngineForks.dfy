/** When the order of completions decides. Every trail can be walked by a run that
    ends the runs on it one after the other. So if something is found both within
    the depth limit and beyond it, one whole run visits it and another one rejects
    it. */
module EngineForks {
  import opened Model
  import opened Investigation
  import opened EngineSpec
  import opened EngineInvariants
  import opened EngineSteps
  import opened EngineTheorems
  import opened EngineOrder
  import opened EngineFindings
  import opened EngineTrails
  import opened EngineConfluence

  // ------------------------------------------------------------ composing runs

  /** A run that the collectors' findings account for, so far. */
  ghost predicate Follows(e: Setup, found: Finds, s: State, events: seq<Event>)
  {
    Possible(e, s, events) && AllAnswer(e, found, s, events)
  }

  lemma {:induction false} FollowsOn(e: Setup, found: Finds, s: State, a: seq<Event>, b: seq<Event>)
    requires Follows(e, found, s, a) && Follows(e, found, Play(e, s, a), b)
    ensures Follows(e, found, s, a + b) && Play(e, s, a + b) == Play(e, Play(e, s, a), b)
    decreases |a|
  {
    if a == [] {
      assert a + b == b;
    } else {
      assert (a + b)[0] == a[0] && (a + b)[1..] == a[1..] + b;
      FollowsOn(e, found, Step(e, s, a[0]), a[1..], b);
    }
  }

  lemma OneFollows(e: Setup, found: Finds, s: State, event: Event)
    requires Enabled(s, event) && Answers(found, s, event)
    ensures Follows(e, found, s, [event]) && Play(e, s, [event]) == Step(e, s, event)
  {
    assert [event][1..] == [];
  }

  function JustPivots(pivots: seq<Indicator>): (c: Collection)
  {
    Collection([], [], [], pivots, [])
  }

  /** The run of task `id` ends with what its collector finds. */
  function Ends(found: Finds, s: State, id: nat): (event: Event)
    requires id in s.pending
  {
    Found(JustPivots(found(s.pending[id].source, s.pending[id].indicator)), 0, 0, id)
  }

  /** Every state the engine rests in can be played to the end. */
  lemma {:induction false} CanFinish(e: Setup, found: Finds, s: State) returns (events: seq<Event>)
    requires Resting(e, s)
    ensures Follows(e, found, s, events) && Play(e, s, events).pending == map[]
    decreases Measure(e, s)
  {
    if s.pending == map[] {
      events := [];
    } else {
      var id :| id in s.pending;
      var event := Ends(found, s, id);
      StepProgress(e, s, event);
      var rest := CanFinish(e, found, Step(e, s, event));
      OneFollows(e, found, s, event);
      FollowsOn(e, found, s, [event], rest);
      events := [event] + rest;
    }
  }

  /** A run so far is completed to the end; what it decided stays decided. */
  lemma PlayedOut(e: Setup, store: Store, found: Finds, before: seq<Event>) returns (events: seq<Event>)
    requires Steady(e) && Ready(e, store) && Follows(e, found, Begin(e, store), before)
    ensures WholeRun(e, store, found, events) && before <= events
    ensures var s, t := Reached(e, store, before), Reached(e, store, events);
      s.visited <= t.visited && s.dropped <= t.dropped && t.visited !! t.dropped
  {
    ReachedRests(e, store, before);
    var s := Reached(e, store, before);
    var rest := CanFinish(e, found, s);
    FollowsOn(e, found, Begin(e, store), before, rest);
    PlayKeepsDecisions(e, s, rest);
    events := before + rest;
    ReachedRests(e, store, events);
  }

  lemma FollowsOne(e: Setup, found: Finds, b: State, events: seq<Event>, last: Event)
    requires Follows(e, found, b, events)
    requires Enabled(Play(e, b, events), last) && Answers(found, Play(e, b, events), last)
    ensures Follows(e, found, b, events + [last]) && Play(e, b, events + [last]) == Step(e, Play(e, b, events), last)
  {
    OneFollows(e, found, Play(e, b, events), last);
    FollowsOn(e, found, b, events, [last]);
  }

  // ------------------------------------------------------------ walking a trail

  /** Where the runs of the trail were. */
  function Passed(target: Indicator, t: seq<Hop>): (r: set<Indicator>)
  {
    if t == [] then {} else EndsOf(target, t[..|t| - 1])
  }

  /** Only runs of the trail are over, and only what they found is decided. */
  ghost predicate OnlyOn(e: Setup, found: Finds, s: State, t: seq<Hop>)
  {
    && (forall p :: Unseen(e, found, s.store.target, t, p) ==> p !in s.visited && p !in s.dropped)
    && (forall i :: 0 <= i < |s.launches| && i !in s.pending ==> s.launches[i].indicator in Passed(s.store.target, t))
  }

  /** The trail was walked: its end is visited if it stays within the depth limit, and
      rejected otherwise. */
  ghost predicate Walked(e: Setup, found: Finds, s: State, t: seq<Hop>)
  {
    && OnlyOn(e, found, s, t)
    && Labelled(s, EndOf(s.store.target, t), Saturated(|t|))
    && EndOf(s.store.target, t) in (if Near(e, t) then s.visited else s.dropped)
  }

  /** Collector `h.k` still runs where the trail ends. */
  lemma Waiting(e: Setup, found: Finds, s: State, t: seq<Hop>, h: Hop) returns (id: nat)
    requires Resting(e, s) && AllStarted(e, s) && Walked(e, found, s, t) && Near(e, t)
    requires Trail(e, found, s.store.target, t) && h.from == EndOf(s.store.target, t)
    requires h.k < |e.collectors| && RunsOn(e.collectors[h.k], h.from, s.store.target)
    ensures id in s.pending && id < |s.launches| && s.launches[id].source == e.collectors[h.k].id
    ensures s.launches[id].indicator == h.from && s.pending[id].depth == Saturated(|t|)
  {
    assert Launched(s, e.collectors[h.k].id, h.from);
    id :| 0 <= id < |s.launches| && s.launches[id].source == e.collectors[h.k].id && s.launches[id].indicator == h.from;
    if t != [] { NewEnd(e, found, s.store.target, t[..|t| - 1], h.from); }
  }

  lemma EndsPursued(e: Setup, found: Finds, s: State, id: nat, room: set<Indicator>)
    requires Steady(e) && Resting(e, s) && id in s.pending && id < |s.launches|
    requires AllSettled(found, s) && Explained(e, found, s) && Places(e, found, s.store.target, room)
    ensures var c := JustPivots(found(s.launches[id].source, s.launches[id].indicator));
      && Pursued(e, found, s, Followed(e, s, id, c), id, Deeper(s.pending[id].depth))
      && Step(e, s, Ends(found, s, id)) == Settled(Followed(e, s, id, c), RunStatus(s, id, Collected(c), 0, 0))
      && Examined(c.pivots) == c.pivots
  {
    var c := JustPivots(found(s.launches[id].source, s.launches[id].indicator));
    var k, t := IsEnding(e, found, s, id);
    CollectedPursued(e, found, s, id, c, k, t, room);
    EndingDepth(e, found, s, id, k, t);
    EndingFits(e, found, s, id, k, t, room);
    CompleteParts(e, s, id, Collected(c), 0, 0);
  }

  lemma PassedOn(target: Indicator, t: seq<Hop>, h: Hop)
    ensures Passed(target, t) <= EndsOf(target, t) == Passed(target, t + [h]) && EndOf(target, t) in EndsOf(target, t)
  {
    assert (t + [h])[..|t|] == t;
    if t != [] {
      EndsSnoc(target, t[..|t| - 1], t[|t| - 1]);
      assert t == t[..|t| - 1] + [t[|t| - 1]];
    }
  }

  lemma UnseenPrefix(e: Setup, found: Finds, target: Indicator, t: seq<Hop>, h: Hop, p: Indicator)
    requires Unseen(e, found, target, t + [h], p)
    ensures Unseen(e, found, target, t, p) && !HopFinds(e, found, h, p)
  {
    assert (t + [h])[|t|] == h;
    forall i | 0 <= i < |t| ensures !HopFinds(e, found, t[i], p) { assert (t + [h])[i] == t[i]; }
  }

  /** Nothing else is over or decided once run `id` of the hop is over. */
  lemma OnlyOnNext(e: Setup, found: Finds, s: State, r: State, t: seq<Hop>, h: Hop, id: nat, depth: U8)
    requires OnlyOn(e, found, s, t) && id < |s.launches| && h.k < |e.collectors|
    requires s.launches[id].source == e.collectors[h.k].id && s.launches[id].indicator == h.from == EndOf(s.store.target, t)
    requires Pursued(e, found, s, r, id, depth)
    requires forall i :: 0 <= i < |r.launches| && i !in r.pending && i != id ==> i < |s.launches| && i !in s.pending
    ensures OnlyOn(e, found, r, t + [h])
  {
    var target := s.store.target;
    forall p | Unseen(e, found, target, t + [h], p) ensures p !in r.visited && p !in r.dropped {
      UnseenPrefix(e, found, target, t, h, p);
      assert p in r.visited || p in r.dropped ==> p in r.visited + r.dropped;
    }
    PassedOn(target, t, h);
    forall i | 0 <= i < |r.launches| && i !in r.pending ensures r.launches[i].indicator in Passed(target, t + [h]) {
      assert r.launches[i] == s.launches[i];
    }
  }

  lemma NextLabelled(e: Setup, s: State, r: State, depth: U8, p: Indicator)
    requires Ledger(e, s) && NewRuns(s, r, depth) && p !in s.visited
    ensures Labelled(r, p, depth)
  {
    forall i | 0 <= i < |s.launches| ensures r.launches[i] == s.launches[i] && s.launches[i].indicator in s.visited {
      assert LaunchOk(e, s, i);
    }
  }

  /** What is over after the run: what was, and the run. */
  lemma FollowedOver(e: Setup, s: State, id: nat, c: Collection)
    requires Ledger(e, s) && id in s.pending
    ensures var r := Followed(e, s, id, c);
      forall i :: 0 <= i < |r.launches| && i !in r.pending && i != id ==> i < |s.launches| && i !in s.pending
    ensures forall p :: p in Examined(c.pivots) ==> p in Followed(e, s, id, c).visited || p in Followed(e, s, id, c).dropped
  {
    var h, r := Handed(s, id, c), Followed(e, s, id, c);
    FollowAllGrows(e, h, Examined(c.pivots), Deeper(s.pending[id].depth), id);
    forall i | 0 <= i < |r.launches| && i !in r.pending && i != id ensures i < |s.launches| && i !in s.pending {
      assert i !in r.pending.Keys && i !in h.pending.Keys;
    }
  }

  lemma NextDecided(e: Setup, found: Finds, s: State, r: State, id: nat, depth: U8, p: Indicator)
    requires id < |s.launches| && Pursued(e, found, s, r, id, depth) && Uncovers(e, found, s, id, p)
    requires p in r.visited || p in r.dropped
    ensures p in (if depth <= e.limits.maxDepth then r.visited else r.dropped)
  {
  }

  /** Run `id` waits to make hop `h`. */
  ghost predicate Makes(e: Setup, found: Finds, s: State, t: seq<Hop>, h: Hop, id: nat)
  {
    && id in s.pending && id < |s.launches| && h.k < |e.collectors| && s.launches[id].source == e.collectors[h.k].id
    && s.launches[id].indicator == h.from == EndOf(s.store.target, t) && s.pending[id].depth == Saturated(|t|)
    && Reachable(e, found, s.store.target, h.k, h.from, h.to) && Unseen(e, found, s.store.target, t, h.to)
  }

  lemma WalkedOn(e: Setup, found: Finds, s: State, r: State, t: seq<Hop>, h: Hop, id: nat)
    requires Ledger(e, s) && OnlyOn(e, found, s, t) && Near(e, t) && Makes(e, found, s, t, h, id)
    requires Pursued(e, found, s, r, id, Saturated(|t| + 1)) && (h.to in r.visited || h.to in r.dropped)
    requires forall i :: 0 <= i < |r.launches| && i !in r.pending && i != id ==> i < |s.launches| && i !in s.pending
    ensures Walked(e, found, r, t + [h])
  {
    NearOrFar(e, t, h);
    OnlyOnNext(e, found, s, r, t, h, id, Saturated(|t| + 1));
    NextLabelled(e, s, r, Saturated(|t| + 1), h.to);
    NextDecided(e, found, s, r, id, Saturated(|t| + 1), h.to);
  }

  lemma WalkedSettled(e: Setup, found: Finds, s: State, t: seq<Hop>, x: SourceStatus)
    requires Walked(e, found, s, t)
    ensures Walked(e, found, Settled(s, x), t)
  {
  }

  lemma Walks(e: Setup, found: Finds, s: State, t: seq<Hop>, h: Hop, id: nat, room: set<Indicator>)
    requires Steady(e) && Resting(e, s) && AllSettled(found, s) && Explained(e, found, s)
    requires Places(e, found, s.store.target, room) && OnlyOn(e, found, s, t) && Near(e, t) && Makes(e, found, s, t, h, id)
    ensures Walked(e, found, Step(e, s, Ends(found, s, id)), t + [h])
  {
    var c := JustPivots(found(s.launches[id].source, s.launches[id].indicator));
    EndsPursued(e, found, s, id, room);
    Saturates(|t|);
    FollowedOver(e, s, id, c);
    WalkedOn(e, found, s, Followed(e, s, id, c), t, h, id);
    WalkedSettled(e, found, Followed(e, s, id, c), t + [h], RunStatus(s, id, Collected(c), 0, 0));
  }

  lemma BeginWalked(e: Setup, store: Store, found: Finds)
    requires Steady(e) && Ready(e, store)
    ensures Walked(e, found, Begin(e, store), [])
  {
    var s := Begin(e, store);
    BeginStarts(e, store, found);
    ScheduleGrows(e, Blank(store), store.target, 0, FromTarget, 0);
    forall i | 0 <= i < |s.launches|
      ensures i in s.pending && (s.launches[i].indicator == store.target ==> s.launches[i].depth == 0)
    {
      assert i in s.pending.Keys && LaunchOk(e, s, i);
    }
  }

  /** One more run of the trail is over. */
  lemma WalkOn(e: Setup, store: Store, found: Finds, room: set<Indicator>, t: seq<Hop>, h: Hop, before: seq<Event>)
    returns (events: seq<Event>)
    requires RunSoFar(e, store, found, before) && Places(e, found, store.target, room)
    requires Trail(e, found, store.target, t) && Walked(e, found, Reached(e, store, before), t) && Near(e, t)
    requires h.from == EndOf(store.target, t) && h.k < |e.collectors|
    requires Reachable(e, found, store.target, h.k, h.from, h.to) && Unseen(e, found, store.target, t, h.to)
    ensures RunSoFar(e, store, found, events) && Walked(e, found, Reached(e, store, events), t + [h])
  {
    var s := Reached(e, store, before);
    ReachedSettles(e, store, found, before);
    ReachedExplained(e, store, found, before, room);
    var id := Waiting(e, found, s, t, h);
    Walks(e, found, s, t, h, id, room);
    FollowsOne(e, found, Begin(e, store), before, Ends(found, s, id));
    events := before + [Ends(found, s, id)];
  }

  lemma LastHop(e: Setup, found: Finds, target: Indicator, t: seq<Hop>, h: Hop)
    requires Trail(e, found, target, t + [h]) && (Near(e, t + [h]) || Far(e, t + [h]))
    ensures Trail(e, found, target, t) && Near(e, t) && h.from == EndOf(target, t) && h.k < |e.collectors|
    ensures Reachable(e, found, target, h.k, h.from, h.to) && Unseen(e, found, target, t, h.to)
  {
    assert (t + [h])[..|t|] == t;
  }

  /** Every trail up to the first hop beyond the depth limit can be walked. */
  lemma {:induction false} WalkTrail(e: Setup, store: Store, found: Finds, room: set<Indicator>, t: seq<Hop>)
    returns (events: seq<Event>)
    requires Steady(e) && Ready(e, store) && Places(e, found, store.target, room)
    requires Trail(e, found, store.target, t) && (Near(e, t) || Far(e, t))
    ensures RunSoFar(e, store, found, events) && Walked(e, found, Reached(e, store, events), t)
    decreases |t|
  {
    if t == [] {
      BeginWalked(e, store, found);
      events := [];
    } else {
      var init, h := t[..|t| - 1], t[|t| - 1];
      assert t == init + [h];
      LastHop(e, found, store.target, init, h);
      var before := WalkTrail(e, store, found, room, init);
      events := WalkOn(e, store, found, room, init, h, before);
    }
  }

  // ------------------------------------------------------------------ the result

  /** With a place for everything: if something is found both within the depth limit
      and beyond it, one whole run visits it and another one rejects it. */
  lemma OrderDecides(e: Setup, store: Store, found: Finds, room: set<Indicator>, p: Indicator)
    returns (one: seq<Event>, other: seq<Event>)
    requires Steady(e) && Ready(e, store) && Places(e, found, store.target, room)
    requires FoundNear(e, found, store.target, p) && FoundFar(e, found, store.target, p)
    ensures WholeRun(e, store, found, one) && p in Reached(e, store, one).visited
    ensures WholeRun(e, store, found, other) && p in Reached(e, store, other).dropped
  {
    var near :| LeadsTo(e, found, store.target, near, p) && Near(e, near);
    var far :| LeadsTo(e, found, store.target, far, p) && Far(e, far);
    one := DecidedBy(e, store, found, room, near);
    other := DecidedBy(e, store, found, room, far);
  }

  lemma DecidedBy(e: Setup, store: Store, found: Finds, room: set<Indicator>, t: seq<Hop>) returns (events: seq<Event>)
    requires Steady(e) && Ready(e, store) && Places(e, found, store.target, room)
    requires Trail(e, found, store.target, t) && (Near(e, t) || Far(e, t))
    ensures WholeRun(e, store, found, events)
    ensures EndOf(store.target, t) in
              (if Near(e, t) then Reached(e, store, events).visited else Reached(e, store, events).dropped)
  {
    var before := WalkTrail(e, store, found, room, t);
    TargetKept(e, store, before);
    events := PlayedOut(e, store, found, before);
  }

  /** Two whole runs with these findings visit different indicators. */
  ghost predicate OrderMatters(e: Setup, store: Store, found: Finds)
  {
    exists one, other :: WholeRun(e, store, found, one) && WholeRun(e, store, found, other) &&
                         Reached(e, store, one).visited != Reached(e, store, other).visited
  }

  /** With a place for everything the order of completions matters exactly when
      something is found both within the depth limit and beyond it. */
  lemma OrderMattersExactly(e: Setup, store: Store, found: Finds, room: set<Indicator>)
    requires Steady(e) && Ready(e, store) && Places(e, found, store.target, room)
    ensures OrderMatters(e, store, found) <==>
              exists p :: FoundNear(e, found, store.target, p) && FoundFar(e, found, store.target, p)
  {
    if p :| FoundNear(e, found, store.target, p) && FoundFar(e, found, store.target, p) {
      var one, other := OrderDecides(e, store, found, room, p);
      PivotsWithinLimits(e, store, other);
    } else if one, other :| WholeRun(e, store, found, one) && WholeRun(e, store, found, other) &&
                            Reached(e, store, one).visited != Reached(e, store, other).visited {
      SameVisited(e, store, found, room, one, other);
    }
  }
}
