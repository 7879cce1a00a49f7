/** What the order of completions decides: which pivots get the last free places,
    and whether a pivot is first offered within the depth limit or beyond it. The
    set of visited indicators is therefore not a function of what the collectors
    find, and a rejected pivot stays rejected. */
module EngineOrder {
  import opened Model
  import opened Investigation
  import opened EngineSpec
  import opened EngineInvariants
  import opened EngineSteps
  import opened EngineTheorems

  // ----------------------------------------------------- rejection is for good

  lemma {:induction false} FollowAllKeeps(e: Setup, s: State, pivots: seq<Indicator>, depth: U8, i: nat)
    ensures var r := FollowAll(e, s, pivots, depth, FromRun(i)); s.dropped <= r.dropped && s.visited <= r.visited
    decreases |pivots|
  {
    if pivots != [] {
      if Enters(e, s, pivots[0], depth) {
        ScheduleFrame(e, Entered(s, pivots[0]), pivots[0], depth, FromRun(i), 0);
      }
      FollowAllKeeps(e, Follow(e, s, pivots[0], depth, FromRun(i)), pivots[1..], depth, i);
    }
  }

  lemma {:induction false} DrainKeeps(s: State, order: seq<nat>, now: Timestamp)
    ensures Drain(s, order, now).dropped == s.dropped && Drain(s, order, now).visited == s.visited
    decreases |order|
  {
    if order != [] { DrainKeeps(CutOff(s, order[0], now), order[1..], now); }
  }

  lemma StepKeepsDecisions(e: Setup, s: State, event: Event)
    ensures s.dropped <= Step(e, s, event).dropped && s.visited <= Step(e, s, event).visited
  {
    match event
    case Completed(id, end, from, to) =>
      if id in s.pending && end.Collected? {
        CompleteParts(e, s, id, end, from, to);
        FollowAllKeeps(e, Handed(s, id, end.collection), Examined(end.collection.pivots), Deeper(s.pending[id].depth), id);
      }
    case Crashed(id) =>
    case Deadline(order) => DrainKeeps(Struck(s), order, e.clock(s.ticks));
  }

  lemma {:induction false} PlayKeepsDecisions(e: Setup, s: State, events: seq<Event>)
    ensures s.dropped <= Play(e, s, events).dropped && s.visited <= Play(e, s, events).visited
    decreases |events|
  {
    if events != [] {
      StepKeepsDecisions(e, s, events[0]);
      PlayKeepsDecisions(e, Step(e, s, events[0]), events[1..]);
    }
  }

  /** A pivot rejected at some join is never followed later in the run, whoever
      offers it again and however close to the target. */
  lemma RejectionStands(e: Setup, store: Store, before: seq<Event>, after: seq<Event>, pivot: Indicator)
    requires Run(e, store, before) && Possible(e, Reached(e, store, before), after)
    requires pivot in Reached(e, store, before).dropped
    ensures pivot !in Play(e, Reached(e, store, before), after).visited
  {
    var s := Reached(e, store, before);
    ReachedRests(e, store, before);
    RunKeeps(e, s, after);
    PlayKeepsDecisions(e, s, after);
  }

  // ----------------------------------------------------- the last free place

  function Found(c: Collection, from: Timestamp, to: Timestamp, id: nat): (x: Event)
  {
    Completed(id, Collected(c), from, to)
  }

  /** A run that found one pivot nobody offered before. */
  ghost predicate Offers(e: Setup, s: State, id: nat, c: Collection, pivot: Indicator)
  {
    && id in s.pending && c.pivots == [pivot] && WellFormedAll(c)
    && pivot !in s.visited && pivot !in s.dropped && e.investigable(pivot)
    && Deeper(s.pending[id].depth) <= e.limits.maxDepth
  }

  lemma FollowOne(e: Setup, h: State, pivot: Indicator, depth: U8, i: nat)
    requires pivot !in h.visited && pivot !in h.dropped && e.investigable(pivot) && depth <= e.limits.maxDepth
    ensures var r := FollowAll(e, h, [pivot], depth, FromRun(i));
      if |h.visited| <= e.limits.maxEntities then r.visited == h.visited + {pivot} && r.dropped == h.dropped
      else r.visited == h.visited && r.dropped == h.dropped + {pivot}
  {
    var next := Follow(e, h, pivot, depth, FromRun(i));
    assert [pivot][1..] == [];
    assert FollowAll(e, h, [pivot], depth, FromRun(i)) == FollowAll(e, next, [], depth, FromRun(i)) == next;
    if |h.visited| <= e.limits.maxEntities {
      ScheduleFrame(e, Entered(h, pivot), pivot, depth, FromRun(i), 0);
    }
  }

  lemma PivotDecided(e: Setup, s: State, id: nat, c: Collection, pivot: Indicator, from: Timestamp, to: Timestamp)
    requires Offers(e, s, id, c, pivot)
    ensures var r := Step(e, s, Found(c, from, to, id));
      if |s.visited| <= e.limits.maxEntities then r.visited == s.visited + {pivot} && r.dropped == s.dropped
      else r.visited == s.visited && r.dropped == s.dropped + {pivot}
  {
    CompleteParts(e, s, id, Collected(c), from, to);
    FollowOne(e, Handed(s, id, c), pivot, Deeper(s.pending[id].depth), id);
    assert Examined(c.pivots) == [pivot];
  }

  lemma OtherStays(e: Setup, s: State, id: nat, other: nat, c: Collection, from: Timestamp, to: Timestamp)
    requires Resting(e, s) && id in s.pending && other in s.pending && id != other && WellFormedAll(c)
    ensures var r := Step(e, s, Found(c, from, to, id));
      && other in r.pending && r.pending[other].depth == s.pending[other].depth
      && r.pending[other].source == s.pending[other].source && r.pending[other].indicator == s.pending[other].indicator
  {
    var r := Step(e, s, Found(c, from, to, id));
    CompleteParts(e, s, id, Collected(c), from, to);
    CompleteRests(e, s, id, Collected(c), from, to);
    FollowAllPending(e, Handed(s, id, c), Examined(c.pivots), Deeper(s.pending[id].depth), id);
    assert r.launches[other] == s.launches[other];
  }

  lemma {:induction false} FollowAllPending(e: Setup, s: State, pivots: seq<Indicator>, depth: U8, i: nat)
    ensures s.pending.Keys <= FollowAll(e, s, pivots, depth, FromRun(i)).pending.Keys
    decreases |pivots|
  {
    if pivots != [] {
      if Enters(e, s, pivots[0], depth) {
        ScheduleFrame(e, Entered(s, pivots[0]), pivots[0], depth, FromRun(i), 0);
      }
      FollowAllPending(e, Follow(e, s, pivots[0], depth, FromRun(i)), pivots[1..], depth, i);
    }
  }

  /** With one place left and two runs that each found a new pivot, the run joined
      first decides which pivot is followed and which is rejected for good. */
  lemma CompletionOrderMatters(e: Setup, s: State, a: nat, b: nat, p: Indicator, q: Indicator,
                               ca: Collection, cb: Collection, from: Timestamp, to: Timestamp)
    requires Resting(e, s) && a != b && p != q && |s.visited| == e.limits.maxEntities
    requires Offers(e, s, a, ca, p) && Offers(e, s, b, cb, q)
    ensures var ab := Step(e, Step(e, s, Found(ca, from, to, a)), Found(cb, from, to, b));
            var ba := Step(e, Step(e, s, Found(cb, from, to, b)), Found(ca, from, to, a));
      && ab.visited == s.visited + {p} && q in ab.dropped
      && ba.visited == s.visited + {q} && p in ba.dropped
  {
    LastPlace(e, s, a, b, p, q, ca, cb, from, to);
    LastPlace(e, s, b, a, q, p, cb, ca, from, to);
  }

  lemma LastPlace(e: Setup, s: State, a: nat, b: nat, p: Indicator, q: Indicator,
                  ca: Collection, cb: Collection, from: Timestamp, to: Timestamp)
    requires Resting(e, s) && a != b && p != q && |s.visited| == e.limits.maxEntities
    requires Offers(e, s, a, ca, p) && Offers(e, s, b, cb, q)
    ensures var ab := Step(e, Step(e, s, Found(ca, from, to, a)), Found(cb, from, to, b));
            ab.visited == s.visited + {p} && q in ab.dropped
  {
    var next := Step(e, s, Found(ca, from, to, a));
    PivotDecided(e, s, a, ca, p, from, to);
    assert Offers(e, next, b, cb, q) by { StillOffers(e, s, a, b, ca, cb, p, q, from, to); }
    OneVisited(s, next, p);
    PivotDecided(e, next, b, cb, q, from, to);
  }

  lemma OneVisited(s: State, r: State, p: Indicator)
    requires p !in s.visited && r.visited == s.visited + {p}
    ensures |r.visited| == |s.visited| + 1
  {
  }

  lemma StillOffers(e: Setup, s: State, a: nat, b: nat, ca: Collection, cb: Collection, p: Indicator, q: Indicator,
                    from: Timestamp, to: Timestamp)
    requires Resting(e, s) && a != b && p != q && |s.visited| <= e.limits.maxEntities
    requires Offers(e, s, a, ca, p) && Offers(e, s, b, cb, q)
    ensures Offers(e, Step(e, s, Found(ca, from, to, a)), b, cb, q)
  {
    var next := Step(e, s, Found(ca, from, to, a));
    assert next.visited == s.visited + {p} && next.dropped == s.dropped by { PivotDecided(e, s, a, ca, p, from, to); }
    assert b in next.pending && next.pending[b].depth == s.pending[b].depth by { OtherStays(e, s, a, b, ca, from, to); }
  }

  // ------------------------------------------------------------- the depth limit

  lemma TooDeep(e: Setup, s: State, id: nat, c: Collection, pivot: Indicator, from: Timestamp, to: Timestamp)
    requires id in s.pending && c.pivots == [pivot] && WellFormedAll(c)
    requires pivot !in s.visited && e.limits.maxDepth < Deeper(s.pending[id].depth)
    ensures var r := Step(e, s, Found(c, from, to, id)); r.visited == s.visited && r.dropped == s.dropped + {pivot}
  {
    CompleteParts(e, s, id, Collected(c), from, to);
    var h, depth := Handed(s, id, c), Deeper(s.pending[id].depth);
    assert Examined(c.pivots) == [pivot] && [pivot][1..] == [];
    var next := Follow(e, h, pivot, depth, FromRun(id));
    assert FollowAll(e, h, [pivot], depth, FromRun(id)) == FollowAll(e, next, [], depth, FromRun(id)) == next;
  }

  /** Two runs offer one pivot, one of them from the depth limit. If that one is
      joined first the pivot is rejected for good, though the other would have
      brought it within the limit and places are free. */
  lemma DepthOrderMatters(e: Setup, s: State, deep: nat, near: nat, p: Indicator, cd: Collection, cn: Collection,
                          from: Timestamp, to: Timestamp)
    requires Resting(e, s) && deep in s.pending && |s.visited| <= e.limits.maxEntities
    requires Offers(e, s, near, cn, p) && cd.pivots == [p] && WellFormedAll(cd)
    requires e.limits.maxDepth < Deeper(s.pending[deep].depth)
    ensures var dn := Step(e, Step(e, s, Found(cd, from, to, deep)), Found(cn, from, to, near));
            var nd := Step(e, Step(e, s, Found(cn, from, to, near)), Found(cd, from, to, deep));
      p in dn.dropped && p !in dn.visited && p in nd.visited && p !in nd.dropped
  {
    DeepFirst(e, s, deep, near, p, cd, cn, from, to);
    PivotDecided(e, s, near, cn, p, from, to);
    var n := Step(e, s, Found(cn, from, to, near));
    StepProgress(e, s, Found(cn, from, to, near));
    OtherStays(e, s, near, deep, cn, from, to);
    StepKeepsDecisions(e, n, Found(cd, from, to, deep));
    StepProgress(e, n, Found(cd, from, to, deep));
  }

  lemma DeepFirst(e: Setup, s: State, deep: nat, near: nat, p: Indicator, cd: Collection, cn: Collection,
                  from: Timestamp, to: Timestamp)
    requires Resting(e, s) && deep in s.pending && near in s.pending && deep != near && p !in s.visited
    requires cd.pivots == [p] && WellFormedAll(cd) && WellFormedAll(cn)
    requires e.limits.maxDepth < Deeper(s.pending[deep].depth)
    ensures var r := Step(e, Step(e, s, Found(cd, from, to, deep)), Found(cn, from, to, near));
      p in r.dropped && p !in r.visited
  {
    TooDeep(e, s, deep, cd, p, from, to);
    var d := Step(e, s, Found(cd, from, to, deep));
    StepProgress(e, s, Found(cd, from, to, deep));
    OtherStays(e, s, deep, near, cd, from, to);
    StepKeepsDecisions(e, d, Found(cn, from, to, near));
    StepProgress(e, d, Found(cn, from, to, near));
  }
}
