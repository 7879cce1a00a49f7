/** The request budget shared by all collectors of an investigation
    (crates/collectors/src/collector.rs).

    `fetch_update` is a load followed by compare-and-swap attempts, so threads
    interleave between the two. The state machine below takes those steps one
    at a time in any order; the class performs the two atomic operations. */
module Budget {
  import opened Results
  import Net

  /** Where a thread is inside `try_acquire`. `Loaded` holds the value of `used`
      it saw last. */
  datatype Pc = Idle | Loaded(seen: Net.U32)

  datatype State = State(limit: Net.U32, used: Net.U32, threads: map<nat, Pc>, granted: nat, refused: nat)

  /** One atomic step of one thread. A compare-and-swap may fail spuriously. */
  datatype Step = Load(thread: nat) | TrySwap(thread: nat, spurious: bool) | GiveUp(thread: nat)

  function PcOf(s: State, t: nat): (r: Pc)
  {
    if t in s.threads then s.threads[t] else Idle
  }

  predicate Enabled(s: State, step: Step)
  {
    match step
    case Load(t) => PcOf(s, t).Idle?
    case TrySwap(t, _) => PcOf(s, t).Loaded? && PcOf(s, t).seen < s.limit
    case GiveUp(t) => PcOf(s, t).Loaded? && PcOf(s, t).seen >= s.limit
  }

  function Next(s: State, step: Step): (r: State)
    requires Enabled(s, step)
  {
    match step
    case Load(t) => s.(threads := s.threads[t := Loaded(s.used)])
    case TrySwap(t, spurious) =>
      var seen := PcOf(s, t).seen;
      if s.used == seen && !spurious
      then s.(used := seen + 1, threads := s.threads[t := Idle], granted := s.granted + 1)
      else s.(threads := s.threads[t := Loaded(s.used)])
    case GiveUp(t) => s.(threads := s.threads[t := Idle], refused := s.refused + 1)
  }

  function Start(limit: Net.U32): (s: State)
  {
    State(limit, 0, map[], 0, 0)
  }

  ghost predicate Schedulable(s: State, steps: seq<Step>)
    decreases |steps|
  {
    steps == [] || (Enabled(s, steps[0]) && Schedulable(Next(s, steps[0]), steps[1..]))
  }

  /** The state after an interleaving. */
  function After(s: State, steps: seq<Step>): (r: State)
    requires Schedulable(s, steps)
    decreases |steps|
  {
    if steps == [] then s else After(Next(s, steps[0]), steps[1..])
  }

  /** What every step keeps. */
  ghost predicate Consistent(s: State)
  {
    && s.granted == s.used <= s.limit
    && (forall t :: t in s.threads && s.threads[t].Loaded? ==> s.threads[t].seen <= s.used)
    && (s.refused > 0 ==> s.used == s.limit)
  }

  lemma StepKeeps(s: State, step: Step)
    requires Consistent(s) && Enabled(s, step)
    ensures var r := Next(s, step);
            Consistent(r) && r.limit == s.limit && s.used <= r.used &&
            (step.GiveUp? ==> s.used == s.limit)
  {
  }

  /** In every interleaving of any number of threads: as many requests are
      granted as `used` says, never more than the limit, and once one is
      refused the budget is used up. */
  lemma {:induction false} EveryInterleaving(s: State, steps: seq<Step>)
    requires Consistent(s) && Schedulable(s, steps)
    ensures Consistent(After(s, steps)) && After(s, steps).limit == s.limit
    decreases |steps|
  {
    if steps != [] {
      StepKeeps(s, steps[0]);
      EveryInterleaving(Next(s, steps[0]), steps[1..]);
    }
  }

  /** `n` completed attempts are granted exactly up to the limit, whatever the
      interleaving. */
  lemma GrantsAreExact(limit: Net.U32, steps: seq<Step>)
    requires Schedulable(Start(limit), steps)
    ensures var s := After(Start(limit), steps);
            var attempts := s.granted + s.refused;
            s.granted == (if attempts <= limit then attempts else limit as nat) && s.used == s.granted
  {
    EveryInterleaving(Start(limit), steps);
  }

  /** A refusal happens only while `used` equals the limit: at every point of
      every interleaving where a thread gives up. */
  lemma {:induction false} RefusedOnlyWhenExhausted(limit: Net.U32, steps: seq<Step>, i: nat)
    requires Schedulable(Start(limit), steps) && i < |steps| && steps[i].GiveUp?
    ensures Schedulable(Start(limit), steps[..i]) && After(Start(limit), steps[..i]).used == limit
  {
    SplitSchedule(Start(limit), steps, i);
    EveryInterleaving(Start(limit), steps[..i]);
    StepKeeps(After(Start(limit), steps[..i]), steps[i]);
  }

  lemma {:induction false} SplitSchedule(s: State, steps: seq<Step>, i: nat)
    requires Schedulable(s, steps) && i < |steps|
    ensures Schedulable(s, steps[..i]) && Enabled(After(s, steps[..i]), steps[i])
    decreases i
  {
    if i > 0 {
      SplitSchedule(Next(s, steps[0]), steps[1..], i - 1);
      assert steps[..i][1..] == steps[1..][..i - 1];
    }
  }

  /** Step `i` is a swap that was granted a request. */
  ghost predicate SwapSucceeds(s: State, steps: seq<Step>, i: nat)
    requires Schedulable(s, steps) && i < |steps|
  {
    SplitSchedule(s, steps, i);
    var before := After(s, steps[..i]);
    steps[i].TrySwap? && Next(before, steps[i]).granted == before.granted + 1
  }

  /** A swap that does not fail spuriously is refused exactly when another thread
      was granted a request since the value was seen, so some thread always makes
      progress. */
  lemma FailedSwapMeansProgress(s: State, steps: seq<Step>, t: nat)
    requires Consistent(s) && PcOf(s, t) == Loaded(s.used) && Schedulable(s, steps)
    requires forall i :: 0 <= i < |steps| ==> steps[i].thread != t
    requires Enabled(After(s, steps), TrySwap(t, false))
    ensures PcOf(Next(After(s, steps), TrySwap(t, false)), t).Loaded? <==>
              exists i :: 0 <= i < |steps| && SwapSucceeds(s, steps, i)
  {
    OthersLeaveAlone(s, steps, t);
    EveryInterleaving(s, steps);
    GrantedBySwaps(s, steps);
  }

  /** Requests are granted by successful swaps alone. */
  lemma {:induction false} GrantedBySwaps(s: State, steps: seq<Step>)
    requires Consistent(s) && Schedulable(s, steps)
    ensures After(s, steps).granted >= s.granted
    ensures After(s, steps).granted > s.granted <==> exists i :: 0 <= i < |steps| && SwapSucceeds(s, steps, i)
    decreases |steps|
  {
    if steps != [] {
      var next, rest := Next(s, steps[0]), steps[1..];
      StepKeeps(s, steps[0]);
      GrantedBySwaps(next, rest);
      forall i | 0 <= i < |rest| ensures SwapSucceeds(s, steps, i + 1) <==> SwapSucceeds(next, rest, i) {
        SplitSchedule(next, rest, i);
        assert steps[..i + 1][1..] == rest[..i];
      }
      if i :| 0 <= i < |rest| && SwapSucceeds(next, rest, i) { assert SwapSucceeds(s, steps, i + 1); }
      if i :| 1 <= i < |steps| && SwapSucceeds(s, steps, i) { assert SwapSucceeds(next, rest, i - 1); }
      assert SwapSucceeds(s, steps, 0) <==> next.granted > s.granted by { assert steps[..0] == []; }
    }
  }

  lemma {:induction false} OthersLeaveAlone(s: State, steps: seq<Step>, t: nat)
    requires Consistent(s) && Schedulable(s, steps)
    requires forall i :: 0 <= i < |steps| ==> steps[i].thread != t
    ensures PcOf(After(s, steps), t) == PcOf(s, t) && After(s, steps).used >= s.used
    decreases |steps|
  {
    if steps != [] {
      StepKeeps(s, steps[0]);
      forall i | 0 <= i < |steps[1..]| ensures steps[1..][i].thread != t {
        assert steps[1..][i] == steps[i + 1];
      }
      OthersLeaveAlone(Next(s, steps[0]), steps[1..], t);
    }
  }

  /** The steps of one call that no other thread disturbs. */
  function LoneCall(granted: bool): (steps: seq<Step>)
  {
    if granted then [Load(0), TrySwap(0, false)] else [Load(0), GiveUp(0)]
  }

  lemma LoneCallRuns(s: State, granted: bool)
    requires s.threads == map[] && s.used <= s.limit && granted == (s.used < s.limit)
    ensures Schedulable(s, LoneCall(granted))
    ensures After(s, LoneCall(granted)).used == if granted then s.used + 1 else s.used
  {
    var loaded := Next(s, Load(0));
    var last := LoneCall(granted)[1];
    assert LoneCall(granted)[1..] == [last] && [last][1..] == [];
    assert Enabled(loaded, last) && Schedulable(loaded, [last]);
    assert After(s, LoneCall(granted)) == After(loaded, [last]) == After(Next(loaded, last), []) == Next(loaded, last);
  }

  datatype Refused = RequestBudgetExhausted(limit: Net.U32)

  class RequestBudget {
    const limit: Net.U32
    var used: Net.U32

    constructor (limit: Net.U32)
      ensures this.limit == limit && used == 0
    {
      this.limit := limit;
      used := 0;
    }

    /** The atomic swap: on failure it reports the value it found. */
    method CompareExchange(expected: Net.U32, desired: Net.U32) returns (ok: bool, found: Net.U32)
      modifies this`used
      ensures found == old(used) && ok == (old(used) == expected)
      ensures used == if ok then desired else old(used)
      ensures expected < limit && desired == expected + 1 ==>
                var r := Next(State(limit, old(used), map[0 := Loaded(expected)], 0, 0), TrySwap(0, false));
                used == r.used && PcOf(r, 0) == if ok then Idle else Loaded(found)
    {
      found := used;
      ok := used == expected;
      if ok { used := desired; }
    }

    /** The budget as the state machine sees it, with no call under way. */
    ghost function View(): (s: State)
      reads this
    {
      State(limit, used, map[], used, 0)
    }

    /** One call with no other thread in between: takes one request unless the
        budget is exhausted, and then changes nothing. It is a run of the state
        machine. */
    method TryAcquire() returns (granted: bool)
      requires used <= limit
      modifies this`used
      ensures granted == (old(used) < limit) && Schedulable(old(View()), LoneCall(granted))
      ensures After(old(View()), LoneCall(granted)).used == used
      ensures used == (if granted then old(used) + 1 else old(used)) && used <= limit
    {
      LoneCallRuns(View(), used < limit);
      var seen := used;
      granted := false;
      while seen < limit && !granted
        invariant granted ==> used == old(used) + 1 && old(used) < limit
        invariant !granted ==> used == old(used) == seen
        invariant used <= limit
        decreases !granted
      {
        granted, seen := CompareExchange(seen, seen + 1);
      }
    }

    /** What a collector calls before each network request. */
    method AcquireRequest() returns (r: Result<(), Refused>)
      requires used <= limit
      modifies this`used
      ensures r == if old(used) < limit then Ok(()) else Err(RequestBudgetExhausted(limit))
      ensures used == old(used) + (if r.Ok? then 1 else 0) && used <= limit
    {
      var granted := TryAcquire();
      r := if granted then Ok(()) else Err(RequestBudgetExhausted(limit));
    }
  }
}
