/**
  The channel breaker under concurrency.  Counters are heap cells that are
  loaded, incremented and replaced in separate atomic steps, by any number of
  goroutines in any order.
 */
module BreakerRace {
  import Breaker
  import opened Sequences

  /** Where a goroutine stands between two atomic steps. */
  datatype Pc =
    | Idle
    | Loaded(id: int, cell: nat)                // failure: holds the counter it loaded
    | Tripping(id: int, cell: nat, n: nat)      // failure: its increment returned n, at least the threshold
    | Resetting(id: int)                        // failure: channel disabled, counter still to be replaced
    | Clearing(id: int)                         // success: counter replaced, disable time still to be removed

  datatype Trip = Trip(id: int, cell: nat, n: nat, at: int)

  /** `cells[c]` counts the increments of cell `c`; `owner[c]` is the channel it was made for. */
  datatype State = State(cells: seq<nat>, owner: seq<int>, current: map<int, nat>,
                         disabled: map<int, int>, threads: seq<Pc>, trips: seq<Trip>)

  datatype Step =
    | BeginFailure(t: nat, id: int)
    | Add(t: nat)
    | Disable(t: nat, now: int)
    | Reset(t: nat)
    | BeginSuccess(t: nat, id: int)
    | Clear(t: nat)

  predicate Enabled(s: State, step: Step) {
    && step.t < |s.threads|
    && match step
       case BeginFailure(t, _) => s.threads[t].Idle?
       case Add(t) => s.threads[t].Loaded? && s.threads[t].cell < |s.cells|
       case Disable(t, _) => s.threads[t].Tripping?
       case Reset(t) => s.threads[t].Resetting?
       case BeginSuccess(t, _) => s.threads[t].Idle?
       case Clear(t) => s.threads[t].Clearing?
  }

  /** A counter made for `id` and installed as its current one. */
  function Install(s: State, id: int): State {
    s.(cells := s.cells + [0], owner := s.owner + [id], current := s.current[id := |s.cells|])
  }

  function At(s: State, t: nat, pc: Pc): State
    requires t < |s.threads|
  {
    s.(threads := s.threads[t := pc])
  }

  function Apply(s: State, step: Step): State
    requires Enabled(s, step)
  {
    match step
    case BeginFailure(t, id) =>
      var v := if id in s.current then s else Install(s, id);
      At(v, t, Loaded(id, v.current[id]))
    case Add(t) =>
      var Loaded(id, c) := s.threads[t];
      var n := s.cells[c] + 1;
      At(s.(cells := s.cells[c := n]), t, if n >= Breaker.THRESHOLD then Tripping(id, c, n) else Idle)
    case Disable(t, now) =>
      var Tripping(id, c, n) := s.threads[t];
      At(s.(disabled := s.disabled[id := now], trips := s.trips + [Trip(id, c, n, now)]), t, Resetting(id))
    case Reset(t) => At(Install(s, s.threads[t].id), t, Idle)
    case BeginSuccess(t, id) => At(Install(s, id), t, Clearing(id))
    case Clear(t) => At(s.(disabled := s.disabled - {s.threads[t].id}), t, Idle)
  }

  // ----- Counting.

  function TripsOn(trips: seq<Trip>, c: nat): nat {
    if trips == [] then 0 else TripsOn(trips[..|trips| - 1], c) + if trips[|trips| - 1].cell == c then 1 else 0
  }

  predicate Pends(pc: Pc, c: nat) {
    pc.Tripping? && pc.cell == c
  }

  function PendingOn(threads: seq<Pc>, c: nat): nat {
    if threads == [] then 0
    else PendingOn(threads[..|threads| - 1], c) + if Pends(threads[|threads| - 1], c) then 1 else 0
  }

  lemma {:induction false} PendingMoves(threads: seq<Pc>, t: nat, pc: Pc, c: nat)
    requires t < |threads|
    ensures PendingOn(threads[t := pc], c) + (if Pends(threads[t], c) then 1 else 0)
            == PendingOn(threads, c) + if Pends(pc, c) then 1 else 0
  {
    var last := |threads| - 1;
    if t == last {
      assert threads[t := pc][..last] == threads[..last];
    } else {
      assert threads[t := pc][..last] == threads[..last][t := pc];
      PendingMoves(threads[..last], t, pc, c);
    }
  }

  lemma TripsPush(trips: seq<Trip>, trip: Trip, c: nat)
    ensures TripsOn(trips + [trip], c) == TripsOn(trips, c) + if trip.cell == c then 1 else 0
  {
    assert (trips + [trip])[..|trips|] == trips;
  }

  function Over(n: nat): nat {
    if n >= Breaker.THRESHOLD then n - Breaker.THRESHOLD + 1 else 0
  }

  // ----- What every reachable state satisfies.

  predicate Refers(s: State, id: int, c: nat) {
    c < |s.cells| && c < |s.owner| && s.owner[c] == id
  }

  ghost predicate WellFormed(s: State) {
    && |s.owner| == |s.cells|
    && (forall id :: id in s.current ==> Refers(s, id, s.current[id]))
    && (forall t :: 0 <= t < |s.threads| && (s.threads[t].Loaded? || s.threads[t].Tripping?) ==>
          Refers(s, s.threads[t].id, s.threads[t].cell))
    && (forall i :: 0 <= i < |s.trips| ==>
          && Refers(s, s.trips[i].id, s.trips[i].cell)
          && Breaker.THRESHOLD <= s.trips[i].n <= s.cells[s.trips[i].cell])
    && (forall t :: 0 <= t < |s.threads| && s.threads[t].Tripping? ==>
          Breaker.THRESHOLD <= s.threads[t].n <= s.cells[s.threads[t].cell])
  }

  /** Every increment from the fifth on is one disabling, done or about to be done. */
  predicate Charged(s: State, c: nat)
    requires c < |s.cells|
  {
    TripsOn(s.trips, c) + PendingOn(s.threads, c) == Over(s.cells[c])
  }

  /** Nothing is charged to cells that do not exist yet. */
  ghost predicate Inv(s: State) {
    && WellFormed(s)
    && (forall c: nat :: c < |s.cells| ==> Charged(s, c))
    && (forall c: nat :: c >= |s.cells| ==> TripsOn(s.trips, c) + PendingOn(s.threads, c) == 0)
  }

  predicate Initial(s: State) {
    && s.cells == [] && s.owner == [] && s.current == map[] && s.disabled == map[] && s.trips == []
    && forall t :: 0 <= t < |s.threads| ==> s.threads[t].Idle?
  }

  lemma {:induction false} NonePending(threads: seq<Pc>, c: nat)
    requires forall t :: 0 <= t < |threads| ==> !Pends(threads[t], c)
    ensures PendingOn(threads, c) == 0
  {
    if threads == [] {
    } else {
      NonePending(threads[..|threads| - 1], c);
    }
  }

  lemma InitialInv(s: State)
    requires Initial(s)
    ensures Inv(s)
  {
    forall c: nat
      ensures PendingOn(s.threads, c) == 0
    {
      NonePending(s.threads, c);
    }
  }

  lemma StepWellFormed(s: State, step: Step)
    requires WellFormed(s) && Enabled(s, step)
    ensures WellFormed(Apply(s, step))
  {
  }

  lemma StepInv(s: State, step: Step)
    requires Inv(s) && Enabled(s, step)
    ensures Inv(Apply(s, step))
  {
    StepWellFormed(s, step);
    var v := Apply(s, step);
    forall c: nat
      ensures TripsOn(v.trips, c) + PendingOn(v.threads, c) == if c < |v.cells| then Over(v.cells[c]) else 0
    {
      if c < |s.cells| {
        assert Charged(s, c);
      }
      PendingMoves(s.threads, step.t, v.threads[step.t], c);
      if step.Disable? {
        TripsPush(s.trips, v.trips[|s.trips|], c);
      }
    }
  }

  // ----- Whole runs.

  predicate Possible(s: State, steps: seq<Step>)
    decreases steps
  {
    steps == [] || (Enabled(s, steps[0]) && Possible(Apply(s, steps[0]), steps[1..]))
  }

  function Run(s: State, steps: seq<Step>): State
    requires Possible(s, steps)
    decreases steps
  {
    if steps == [] then s else Run(Apply(s, steps[0]), steps[1..])
  }

  lemma {:induction false} RunInv(s: State, steps: seq<Step>)
    requires Inv(s) && Possible(s, steps)
    ensures Inv(Run(s, steps))
    decreases steps
  {
    if steps == [] {
    } else {
      StepInv(s, steps[0]);
      RunInv(Apply(s, steps[0]), steps[1..]);
    }
  }

  /**
    In every reachable state every disabling is charged to a counter of its own
    channel that was incremented at least five times, and a counter incremented
    `n` times accounts for exactly `n - 4` disablings, done or pending.
   */
  lemma TripsAreCharged(s: State, steps: seq<Step>)
    requires Initial(s) && Possible(s, steps)
    ensures var v := Run(s, steps);
            && (forall i :: 0 <= i < |v.trips| ==>
                 && Refers(v, v.trips[i].id, v.trips[i].cell)
                 && v.cells[v.trips[i].cell] >= 5)
            && (forall c: nat :: c < |v.cells| ==>
                 TripsOn(v.trips, c) + PendingOn(v.threads, c) == if v.cells[c] >= 5 then v.cells[c] - 4 else 0)
  {
    InitialInv(s);
    RunInv(s, steps);
    var v := Run(s, steps);
    forall c: nat | c < |v.cells|
      ensures TripsOn(v.trips, c) + PendingOn(v.threads, c) == if v.cells[c] >= 5 then v.cells[c] - 4 else 0
    {
      assert Charged(v, c);
    }
  }

  /** Increments are never lost: the cells add up to the increments made. */
  function Sum(cells: seq<nat>): nat {
    if cells == [] then 0 else Sum(cells[..|cells| - 1]) + cells[|cells| - 1]
  }

  function Adds(steps: seq<Step>): nat {
    if steps == [] then 0 else (if steps[0].Add? then 1 else 0) + Adds(steps[1..])
  }

  lemma {:induction false} SumSet(cells: seq<nat>, c: nat)
    requires c < |cells|
    ensures Sum(cells[c := cells[c] + 1]) == Sum(cells) + 1
  {
    var last := |cells| - 1;
    if c == last {
      assert cells[c := cells[c] + 1][..last] == cells[..last];
    } else {
      assert cells[c := cells[c] + 1][..last] == cells[..last][c := cells[c] + 1];
      SumSet(cells[..last], c);
    }
  }

  lemma StepSum(s: State, step: Step)
    requires Enabled(s, step)
    ensures Sum(Apply(s, step).cells) == Sum(s.cells) + if step.Add? then 1 else 0
  {
    assert (s.cells + [0])[..|s.cells|] == s.cells;
    if step.Add? {
      SumSet(s.cells, s.threads[step.t].cell);
    }
  }

  lemma {:induction false} NoIncrementLost(s: State, steps: seq<Step>)
    requires Possible(s, steps)
    ensures Sum(Run(s, steps).cells) == Sum(s.cells) + Adds(steps)
    decreases steps
  {
    if steps == [] {
    } else {
      StepSum(s, steps[0]);
      NoIncrementLost(Apply(s, steps[0]), steps[1..]);
    }
  }

  // ----- A replaced counter never comes back.

  /** Counters are installed in the order they are made. */
  predicate Later(s: State, v: State) {
    && |s.cells| <= |v.cells|
    && forall id :: id in s.current ==>
         && id in v.current
         && (v.current[id] == s.current[id] || v.current[id] >= |s.cells|)
  }

  lemma {:induction false} RunLater(s: State, steps: seq<Step>)
    requires Inv(s) && Possible(s, steps)
    ensures Later(s, Run(s, steps))
    ensures forall id :: id in Run(s, steps).current && id !in s.current ==> Run(s, steps).current[id] >= |s.cells|
    decreases steps
  {
    if steps == [] {
    } else {
      StepInv(s, steps[0]);
      RunLater(Apply(s, steps[0]), steps[1..]);
    }
  }

  /**
    Once a channel's counter has been replaced, no channel ever counts on it
    again, whatever late goroutines still increment it.
   */
  lemma ReplacedForGood(s: State, before: seq<Step>, after: seq<Step>, id: int)
    requires Inv(s) && id in s.current
    requires Possible(s, before) && Possible(Run(s, before), after)
    requires id in Run(s, before).current && Run(s, before).current[id] != s.current[id]
    ensures forall other :: other in Run(Run(s, before), after).current ==>
              Run(Run(s, before), after).current[other] != s.current[id]
  {
    var v := Run(s, before);
    var w := Run(v, after);
    var c := s.current[id];
    RunLater(s, before);
    RunInv(s, before);
    RunLater(v, after);
    RunInv(v, after);
    RunOwners(s, before);
    RunOwners(v, after);
    forall other | other in w.current
      ensures w.current[other] != c
    {
      assert Refers(w, other, w.current[other]) && Refers(s, id, c) && w.owner[c] == id;
    }
  }

  lemma {:induction false} RunOwners(s: State, steps: seq<Step>)
    requires Possible(s, steps)
    ensures s.owner <= Run(s, steps).owner
    decreases steps
  {
    if steps == [] {
    } else {
      RunOwners(Apply(s, steps[0]), steps[1..]);
    }
  }

  // ----- Without interference the steps are the sequential breaker.

  function Health(s: State): Breaker.Health
    requires forall id :: id in s.current ==> s.current[id] < |s.cells|
  {
    Breaker.Health(map id | id in s.current :: s.cells[s.current[id]], s.disabled)
  }

  function FailureSteps(s: State, t: nat, id: int, now: int): seq<Step> {
    var n := if id in s.current && s.current[id] < |s.cells| then s.cells[s.current[id]] + 1 else 1;
    if n >= Breaker.THRESHOLD then [BeginFailure(t, id), Add(t), Disable(t, now), Reset(t)]
    else [BeginFailure(t, id), Add(t)]
  }

  /** Two channels never share a counter. */
  lemma CountersApart(s: State, a: int, b: int)
    requires Inv(s) && a in s.current && b in s.current && a != b
    ensures s.current[a] != s.current[b]
  {
    assert Refers(s, a, s.current[a]) && Refers(s, b, s.current[b]);
  }

  /** A failure whose steps nothing interrupts does what the sequential breaker does. */
  lemma FailureAlone(s: State, t: nat, id: int, now: int)
    requires Inv(s) && t < |s.threads| && s.threads[t].Idle?
    ensures var steps := FailureSteps(s, t, id, now);
            && Possible(s, steps)
            && Inv(Run(s, steps))
            && Run(s, steps).threads == s.threads
            && SameHealth(Health(Run(s, steps)), Breaker.OnFailure(Health(s), id, now))
  {
    var steps := FailureSteps(s, t, id, now);
    var s1 := Apply(s, BeginFailure(t, id));
    StepInv(s, BeginFailure(t, id));
    StepInv(s1, Add(t));
    var s2 := Apply(s1, Add(t));
    AddAlone(s, s1, s2, t, id);
    if |steps| == 4 {
      TripAlone(s2, t, now);
      var s3 := Apply(s2, Disable(t, now));
      var s4 := Apply(s3, Reset(t));
      RunFour(s, steps, s1, s2, s3, s4);
      BackIdle(s.threads, t, s2.threads[t]);
      TripHealth(s, s2, s4, id, now);
    } else {
      RunTwo(s, steps, s1, s2);
      assert s.threads[t := Idle] == s.threads;
      CountHealth(s, s2, id, now);
    }
  }

  lemma BackIdle(threads: seq<Pc>, t: nat, pc: Pc)
    requires t < |threads| && threads[t].Idle?
    ensures threads[t := pc][t := Idle] == threads
  {
  }

  lemma TripHealth(s: State, s2: State, v: State, id: int, now: int)
    requires Inv(s) && Inv(s2) && Inv(v)
    requires Asked(Health(s).fails, id) + 1 >= Breaker.THRESHOLD
    requires s2.disabled == s.disabled && SameFails(Health(s2).fails, Health(s).fails, id)
    requires v.disabled == s2.disabled[id := now] && SameFails(Health(v).fails, Health(s2).fails, id)
    requires Asked(Health(v).fails, id) == 0
    ensures SameHealth(Health(v), Breaker.OnFailure(Health(s), id, now))
  {
    forall i
      ensures Asked(Health(v).fails, i) == Asked(Breaker.OnFailure(Health(s), id, now).fails, i)
    {
      if i != id {
        assert Asked(Health(s2).fails, i) == Asked(Health(s).fails, i);
      }
    }
  }

  lemma CountHealth(s: State, v: State, id: int, now: int)
    requires Inv(s) && Inv(v)
    requires Asked(Health(s).fails, id) + 1 < Breaker.THRESHOLD
    requires v.disabled == s.disabled && SameFails(Health(v).fails, Health(s).fails, id)
    requires Asked(Health(v).fails, id) == Asked(Health(s).fails, id) + 1
    ensures SameHealth(Health(v), Breaker.OnFailure(Health(s), id, now))
  {
    forall i
      ensures Asked(Health(v).fails, i) == Asked(Breaker.OnFailure(Health(s), id, now).fails, i)
    {
    }
  }

  ghost predicate SameFails(a: map<int, nat>, b: map<int, nat>, except: int) {
    forall i {:trigger Asked(a, i)} :: i != except ==> Asked(a, i) == Asked(b, i)
  }

  /** The same breaker: a channel without a counter counts as zero. */
  ghost predicate SameHealth(a: Breaker.Health, b: Breaker.Health) {
    && a.disabled == b.disabled
    && forall i {:trigger Asked(a.fails, i)} :: Asked(a.fails, i) == Asked(b.fails, i)
  }

  lemma TripAlone(s: State, t: nat, now: int)
    requires Inv(s) && t < |s.threads| && s.threads[t].Tripping?
    ensures var s3 := Apply(s, Disable(t, now));
            var s4 := Apply(s3, Reset(t));
            var id := s.threads[t].id;
            && Inv(s4) && s4.threads == s.threads[t := Idle]
            && s4.disabled == s.disabled[id := now]
            && Asked(Health(s4).fails, id) == 0
            && SameFails(Health(s4).fails, Health(s).fails, id)
  {
    var s3 := Apply(s, Disable(t, now));
    StepInv(s, Disable(t, now));
    StepInv(s3, Reset(t));
  }

  lemma RunStep(s: State, steps: seq<Step>)
    requires steps != [] && Enabled(s, steps[0]) && Possible(Apply(s, steps[0]), steps[1..])
    ensures Possible(s, steps) && Run(s, steps) == Run(Apply(s, steps[0]), steps[1..])
  {
  }

  lemma RunTwo(s: State, steps: seq<Step>, s1: State, s2: State)
    requires |steps| == 2 && Enabled(s, steps[0]) && s1 == Apply(s, steps[0])
    requires Enabled(s1, steps[1]) && s2 == Apply(s1, steps[1])
    ensures Possible(s, steps) && Run(s, steps) == s2
  {
    var rest := steps[1..];
    assert rest[0] == steps[1] && rest[1..] == [];
    RunStep(s1, rest);
    RunStep(s, steps);
  }

  lemma RunFour(s: State, steps: seq<Step>, s1: State, s2: State, s3: State, s4: State)
    requires |steps| == 4 && Enabled(s, steps[0]) && s1 == Apply(s, steps[0])
    requires Enabled(s1, steps[1]) && s2 == Apply(s1, steps[1])
    requires Enabled(s2, steps[2]) && s3 == Apply(s2, steps[2])
    requires Enabled(s3, steps[3]) && s4 == Apply(s3, steps[3])
    ensures Possible(s, steps) && Run(s, steps) == s4
  {
    var rest := steps[1..];
    assert rest[0] == steps[1] && rest[1..] == steps[2..];
    RunTwo(s2, steps[2..], s3, s4);
    RunStep(s1, rest);
    RunStep(s, steps);
  }

  lemma AddAlone(s: State, s1: State, s2: State, t: nat, id: int)
    requires Inv(s) && t < |s.threads| && s.threads[t].Idle?
    requires s1 == Apply(s, BeginFailure(t, id)) && Inv(s1)
    requires Enabled(s1, Add(t)) && s2 == Apply(s1, Add(t)) && Inv(s2)
    ensures var n := Asked(Health(s).fails, id) + 1;
            && s2.threads == s.threads[t := if n >= Breaker.THRESHOLD then Tripping(id, s1.current[id], n) else Idle]
            && s2.disabled == s.disabled
            && Asked(Health(s2).fails, id) == n
            && SameFails(Health(s2).fails, Health(s).fails, id)
  {
    forall i | i != id
      ensures Asked(Health(s2).fails, i) == Asked(Health(s).fails, i)
    {
      if i in s1.current {
        CountersApart(s1, i, id);
      }
    }
  }

  lemma ClearAlone(s: State, t: nat, id: int)
    requires Inv(s) && t < |s.threads| && s.threads[t].Idle?
    ensures var s1 := Apply(s, BeginSuccess(t, id));
            && Enabled(s1, Clear(t))
            && var s2 := Apply(s1, Clear(t));
            && Inv(s2) && s2.threads == s.threads
            && s2.cells == s.cells + [0] && s2.current == s.current[id := |s.cells|]
            && s2.disabled == s.disabled - {id}
  {
    var s1 := Apply(s, BeginSuccess(t, id));
    StepInv(s, BeginSuccess(t, id));
    StepInv(s1, Clear(t));
    BackIdle(s.threads, t, Clearing(id));
  }

  /** The same for a success. */
  lemma SuccessAlone(s: State, t: nat, id: int)
    requires Inv(s) && t < |s.threads| && s.threads[t].Idle?
    ensures var steps := [BeginSuccess(t, id), Clear(t)];
            && Possible(s, steps)
            && Inv(Run(s, steps))
            && Run(s, steps).threads == s.threads
            && SameHealth(Health(Run(s, steps)), Breaker.OnSuccess(Health(s), id))
  {
    var s1 := Apply(s, BeginSuccess(t, id));
    ClearAlone(s, t, id);
    var s2 := Apply(s1, Clear(t));
    ResetHealth(s, s2, id);
    RunTwo(s, [BeginSuccess(t, id), Clear(t)], s1, s2);
  }

  lemma ResetHealth(s: State, v: State, id: int)
    requires Inv(s) && Inv(v)
    requires v.cells == s.cells + [0] && v.current == s.current[id := |s.cells|] && v.disabled == s.disabled - {id}
    ensures SameHealth(Health(v), Breaker.OnSuccess(Health(s), id))
  {
  }

  // ----- When the calls for one channel wait for each other.

  predicate Working(pc: Pc, id: int) {
    !pc.Idle? && pc.id == id
  }

  predicate Free(s: State, id: int) {
    forall t :: 0 <= t < |s.threads| ==> !Working(s.threads[t], id)
  }

  /** A call for a channel begins only when no other call for it is under way. */
  predicate Waits(s: State, step: Step) {
    (step.BeginFailure? || step.BeginSuccess?) ==> Free(s, step.id)
  }

  predicate Serial(s: State, steps: seq<Step>)
    requires Possible(s, steps)
    decreases steps
  {
    steps == [] || (Waits(s, steps[0]) && Serial(Apply(s, steps[0]), steps[1..]))
  }

  /** What is true of the counter while the call stands there. */
  predicate Fits(s: State, pc: Pc) {
    match pc
    case Idle => true
    case Loaded(id, c) => c < |s.cells| && id in s.current && s.current[id] == c && s.cells[c] < Breaker.THRESHOLD
    case Tripping(id, c, n) =>
      c < |s.cells| && id in s.current && s.current[id] == c && s.cells[c] == n == Breaker.THRESHOLD
    case Resetting(id) => true
    case Clearing(id) => id in s.current && s.current[id] < |s.cells| && s.cells[s.current[id]] == 0
  }

  predicate Below(s: State, id: int) {
    id in s.current ==> s.current[id] < |s.cells| && s.cells[s.current[id]] < Breaker.THRESHOLD
  }

  ghost predicate OneEach(s: State) {
    forall t, u, id :: 0 <= t < u < |s.threads| && Working(s.threads[t], id) ==> !Working(s.threads[u], id)
  }

  ghost predicate Orderly(s: State) {
    && OneEach(s)
    && (forall t :: 0 <= t < |s.threads| ==> Fits(s, s.threads[t]))
    && (forall id :: Free(s, id) ==> Below(s, id))
    && (forall c :: 0 <= c < |s.cells| ==> s.cells[c] <= Breaker.THRESHOLD)
  }

  lemma InitialOrderly(s: State)
    requires Initial(s)
    ensures Orderly(s)
  {
  }

  /** Only the channel a call is for is touched by its steps. */
  lemma OthersKept(s: State, step: Step, id: int)
    requires Inv(s) && Enabled(s, step) && !Working(s.threads[step.t], id)
    requires (step.BeginFailure? || step.BeginSuccess?) ==> step.id != id
    ensures var v := Apply(s, step);
            && (id in v.current <==> id in s.current)
            && (id in s.current ==>
                 v.current[id] == s.current[id] < |s.cells| && v.cells[s.current[id]] == s.cells[s.current[id]])
  {
    if id in s.current {
      assert Refers(s, id, s.current[id]);
      if step.Add? {
        assert Refers(s, s.threads[step.t].id, s.threads[step.t].cell);
      }
    }
  }

  /** The channel a step is for. */
  function IdOf(s: State, step: Step): int
    requires Enabled(s, step)
  {
    if step.BeginFailure? || step.BeginSuccess? then step.id else s.threads[step.t].id
  }

  lemma OneEachStep(s: State, step: Step)
    requires OneEach(s) && Enabled(s, step) && Waits(s, step)
    ensures OneEach(Apply(s, step))
  {
    var v := Apply(s, step);
    assert forall x :: 0 <= x < |s.threads| && x != step.t ==> v.threads[x] == s.threads[x];
    assert forall id :: Working(v.threads[step.t], id) ==> id == IdOf(s, step);
    assert forall id :: Working(v.threads[step.t], id) ==> Working(s.threads[step.t], id) || Free(s, id);
  }

  lemma OwnFits(s: State, step: Step)
    requires Inv(s) && Orderly(s) && Enabled(s, step) && Waits(s, step)
    ensures Fits(Apply(s, step), Apply(s, step).threads[step.t])
    ensures Apply(s, step).threads[step.t].Idle? ==> Below(Apply(s, step), IdOf(s, step))
    ensures forall c :: 0 <= c < |Apply(s, step).cells| ==> Apply(s, step).cells[c] <= Breaker.THRESHOLD
  {
    assert Fits(s, s.threads[step.t]);
    if step.BeginFailure? {
      assert Below(s, step.id);
    }
  }

  lemma OtherFits(s: State, step: Step, x: nat)
    requires Inv(s) && Orderly(s) && Enabled(s, step) && Waits(s, step)
    requires x < |s.threads| && x != step.t
    ensures Fits(Apply(s, step), s.threads[x])
  {
    assert Fits(s, s.threads[x]);
    if !s.threads[x].Idle? {
      var id := s.threads[x].id;
      assert Working(s.threads[x], id);
      assert !Working(s.threads[step.t], id);
      OthersKept(s, step, id);
    }
  }

  lemma FreeBelow(s: State, step: Step, id: int)
    requires Inv(s) && Orderly(s) && Enabled(s, step) && Waits(s, step)
    requires Free(Apply(s, step), id)
    ensures Below(Apply(s, step), id)
  {
    var v := Apply(s, step);
    assert !Working(v.threads[step.t], id);
    assert forall x :: 0 <= x < |s.threads| && x != step.t ==> v.threads[x] == s.threads[x];
    if id == IdOf(s, step) {
      OwnFits(s, step);
      assert v.threads[step.t].Idle?;
    } else {
      assert !Working(s.threads[step.t], id);
      assert Free(s, id) by {
        forall x | 0 <= x < |s.threads|
          ensures !Working(s.threads[x], id)
        {
          if x != step.t {
            assert !Working(v.threads[x], id);
          }
        }
      }
      OthersKept(s, step, id);
    }
  }

  lemma StepOrderly(s: State, step: Step)
    requires Inv(s) && Orderly(s) && Enabled(s, step) && Waits(s, step)
    ensures Orderly(Apply(s, step))
  {
    var v := Apply(s, step);
    OneEachStep(s, step);
    OwnFits(s, step);
    forall x | 0 <= x < |v.threads|
      ensures Fits(v, v.threads[x])
    {
      if x != step.t {
        OtherFits(s, step, x);
      }
    }
    forall id | Free(v, id)
      ensures Below(v, id)
    {
      FreeBelow(s, step, id);
    }
  }

  lemma {:induction false} RunOrderly(s: State, steps: seq<Step>)
    requires Inv(s) && Orderly(s) && Possible(s, steps) && Serial(s, steps)
    ensures Inv(Run(s, steps)) && Orderly(Run(s, steps))
    decreases steps
  {
    if steps == [] {
    } else {
      StepInv(s, steps[0]);
      StepOrderly(s, steps[0]);
      RunOrderly(Apply(s, steps[0]), steps[1..]);
    }
  }

  /**
    When the calls for one channel wait for each other, whatever the calls for
    other channels do, no counter passes five, and a counter accounts for one
    disabling, done or about to be done, exactly when it stands at five.
   */
  lemma SerialTripsOnce(s: State, steps: seq<Step>, c: nat)
    requires Initial(s) && Possible(s, steps) && Serial(s, steps) && c < |Run(s, steps).cells|
    ensures var v := Run(s, steps);
            && v.cells[c] <= 5
            && TripsOn(v.trips, c) + PendingOn(v.threads, c) == if v.cells[c] == 5 then 1 else 0
  {
    InitialInv(s);
    InitialOrderly(s);
    RunOrderly(s, steps);
    assert Charged(Run(s, steps), c);
  }

  // ----- Racing goroutines can disable a channel twice for six failures.

  lemma Prepend(s: State, step: Step, rest: seq<Step>)
    requires Enabled(s, step) && Possible(Apply(s, step), rest)
    ensures Possible(s, [step] + rest) && Run(s, [step] + rest) == Run(Apply(s, step), rest)
  {
    assert ([step] + rest)[1..] == rest;
  }

  /** Both goroutines hold the counter, which already stands at four. */
  lemma BothHold(s: State, t: nat, u: nat, id: int, c: nat, now: int) returns (steps: seq<Step>)
    requires t < |s.threads| && u < |s.threads| && t != u
    requires s.threads[t] == Loaded(id, c) && s.threads[u] == Loaded(id, c)
    requires c < |s.cells| && s.cells[c] == Breaker.THRESHOLD - 1
    ensures Possible(s, steps) && |Run(s, steps).trips| == |s.trips| + 2
    ensures c < |Run(s, steps).cells| && Run(s, steps).cells[c] == Breaker.THRESHOLD + 1
  {
    var a := Apply(s, Add(t));
    var b := Apply(a, Add(u));
    var d := Apply(b, Disable(t, now));
    Prepend(d, Disable(u, now), []);
    Prepend(b, Disable(t, now), [Disable(u, now)] + []);
    Prepend(a, Add(u), [Disable(t, now)] + ([Disable(u, now)] + []));
    Prepend(s, Add(t), [Add(u)] + ([Disable(t, now)] + ([Disable(u, now)] + [])));
    steps := [Add(t)] + ([Add(u)] + ([Disable(t, now)] + ([Disable(u, now)] + [])));
  }

  /**
    From every state in which a channel has failed four times in a row, two
    overlapping failures disable it twice: six failures in all, not ten.
   */
  lemma SixFailuresTwoTrips(s: State, t: nat, u: nat, id: int, now: int) returns (steps: seq<Step>)
    requires Inv(s) && t < |s.threads| && u < |s.threads| && t != u
    requires s.threads[t].Idle? && s.threads[u].Idle?
    requires id in s.current && s.cells[s.current[id]] == 4
    ensures Possible(s, steps) && |Run(s, steps).trips| == |s.trips| + 2
    ensures s.current[id] < |Run(s, steps).cells| && Run(s, steps).cells[s.current[id]] == 6
  {
    var a := Apply(s, BeginFailure(t, id));
    var b := Apply(a, BeginFailure(u, id));
    var rest := BothHold(b, t, u, id, s.current[id], now);
    Prepend(a, BeginFailure(u, id), rest);
    Prepend(s, BeginFailure(t, id), [BeginFailure(u, id)] + rest);
    steps := [BeginFailure(t, id)] + ([BeginFailure(u, id)] + rest);
  }
}
