/**
  The key counters under concurrency.  A relay build looks for the counter and,
  if it finds none, stores a new one in a second step; the legacy proxy does
  both at once.  Counting itself is atomic.
 */
module RotationRace {
  import opened Sums

  /** Where a goroutine stands between two atomic steps. */
  datatype Pc =
    | Idle
    | Missed(id: int)                // a build that found no counter
    | Holds(id: int, cell: nat)      // about to count on the counter it found

  /** A turn taken on a counter: where in its keys a request starts. */
  datatype Turn = Turn(cell: nat, index: nat)

  /** `cells[c]` counts the increments of cell `c`, made for `owner[c]`, by a build if `built[c]`. */
  datatype State = State(cells: seq<nat>, owner: seq<int>, built: seq<bool>, current: map<int, nat>,
                         threads: seq<Pc>, turns: seq<Turn>)

  datatype Step =
    | Look(t: nat, id: int)    // a build: Load
    | Store(t: nat)            // a build that found none: Store, and start at the first key
    | Ask(t: nat, id: int)     // the proxy: LoadOrStore
    | Add(t: nat)              // either: count, and start where the counter stood

  predicate Enabled(s: State, step: Step) {
    && step.t < |s.threads|
    && match step
       case Look(t, _) => s.threads[t].Idle?
       case Store(t) => s.threads[t].Missed?
       case Ask(t, _) => s.threads[t].Idle?
       case Add(t) => s.threads[t].Holds? && s.threads[t].cell < |s.cells|
  }

  function Install(s: State, id: int, built: bool): State {
    s.(cells := s.cells + [0], owner := s.owner + [id], built := s.built + [built],
       current := s.current[id := |s.cells|])
  }

  function At(s: State, t: nat, pc: Pc): State
    requires t < |s.threads|
  {
    s.(threads := s.threads[t := pc])
  }

  function Apply(s: State, step: Step): State
    requires Enabled(s, step)
  {
    match step
    case Look(t, id) => At(s, t, if id in s.current then Holds(id, s.current[id]) else Missed(id))
    case Store(t) =>
      var v := Install(s, s.threads[t].id, true);
      At(v.(turns := v.turns + [Turn(|s.cells|, 0)]), t, Idle)
    case Ask(t, id) =>
      var v := if id in s.current then s else Install(s, id, false);
      At(v, t, Holds(id, v.current[id]))
    case Add(t) =>
      var c := s.threads[t].cell;
      At(s.(cells := s.cells[c := s.cells[c] + 1], turns := s.turns + [Turn(c, s.cells[c])]), t, Idle)
  }

  predicate Possible(s: State, steps: seq<Step>)
    decreases steps
  {
    steps == [] || (Enabled(s, steps[0]) && Possible(Apply(s, steps[0]), steps[1..]))
  }

  function Run(s: State, steps: seq<Step>): State
    requires Possible(s, steps)
    decreases steps
  {
    if steps == [] then s else Run(Apply(s, steps[0]), steps[1..])
  }

  predicate Initial(s: State) {
    && s.cells == [] && s.owner == [] && s.built == [] && s.current == map[] && s.turns == []
    && forall t :: 0 <= t < |s.threads| ==> s.threads[t].Idle?
  }

  // ----- The turns on one counter.

  /** How often a turn was taken. */
  function Taken(s: State, turn: Turn): int {
    Total(s.turns, Is(turn))
  }

  /** Every position counted past is taken once, the first one once more by the build that made the counter. */
  function Expected(s: State, turn: Turn): int {
    if turn.cell >= |s.cells| || turn.cell >= |s.built| then 0
    else (if turn.index < s.cells[turn.cell] then 1 else 0) + if turn.index == 0 && s.built[turn.cell] then 1 else 0
  }

  ghost predicate WellFormed(s: State) {
    && |s.owner| == |s.cells| == |s.built|
    && (forall id :: id in s.current ==> s.current[id] < |s.cells| && s.owner[s.current[id]] == id)
    && (forall t :: 0 <= t < |s.threads| && s.threads[t].Holds? ==>
         s.threads[t].cell < |s.cells| && s.owner[s.threads[t].cell] == s.threads[t].id)
  }

  ghost predicate Inv(s: State) {
    WellFormed(s) && forall turn {:trigger Taken(s, turn)} :: Taken(s, turn) == Expected(s, turn)
  }

  lemma StepWellFormed(s: State, step: Step)
    requires WellFormed(s) && Enabled(s, step)
    ensures WellFormed(Apply(s, step))
  {
  }

  lemma StoreTaken(s: State, step: Step, turn: Turn)
    requires WellFormed(s) && step.Store? && Enabled(s, step) && Taken(s, turn) == Expected(s, turn)
    ensures Taken(Apply(s, step), turn) == Expected(Apply(s, step), turn)
  {
    TotalPush(s.turns, Turn(|s.cells|, 0), Is(turn));
    assert Taken(Apply(s, step), turn) == Taken(s, turn) + if turn == Turn(|s.cells|, 0) then 1 else 0;
  }

  lemma AddTaken(s: State, step: Step, turn: Turn)
    requires WellFormed(s) && step.Add? && Enabled(s, step) && Taken(s, turn) == Expected(s, turn)
    ensures Taken(Apply(s, step), turn) == Expected(Apply(s, step), turn)
  {
    var c := s.threads[step.t].cell;
    TotalPush(s.turns, Turn(c, s.cells[c]), Is(turn));
    assert Taken(Apply(s, step), turn) == Taken(s, turn) + if turn == Turn(c, s.cells[c]) then 1 else 0;
  }

  lemma StepTaken(s: State, step: Step, turn: Turn)
    requires WellFormed(s) && Enabled(s, step) && Taken(s, turn) == Expected(s, turn)
    ensures Taken(Apply(s, step), turn) == Expected(Apply(s, step), turn)
  {
    if step.Store? {
      StoreTaken(s, step, turn);
    } else if step.Add? {
      AddTaken(s, step, turn);
    } else {
      assert Apply(s, step).turns == s.turns;
    }
  }

  lemma StepInv(s: State, step: Step)
    requires Inv(s) && Enabled(s, step)
    ensures Inv(Apply(s, step))
  {
    StepWellFormed(s, step);
    forall turn
      ensures Taken(Apply(s, step), turn) == Expected(Apply(s, step), turn)
    {
      assert Taken(s, turn) == Expected(s, turn);
      StepTaken(s, step, turn);
    }
  }

  lemma {:induction false} RunInv(s: State, steps: seq<Step>)
    requires Inv(s) && Possible(s, steps)
    ensures Inv(Run(s, steps))
    decreases steps
  {
    if steps == [] {
    } else {
      StepInv(s, steps[0]);
      RunInv(Apply(s, steps[0]), steps[1..]);
    }
  }

  /**
    However requests interleave, on every counter the positions from 0 up to its
    count are each taken once, and the first once more if a build made it; no
    other turn is taken, and every counter serves only the number it was made for.
   */
  lemma TurnsOnACounter(s: State, steps: seq<Step>, turn: Turn)
    requires Initial(s) && Possible(s, steps)
    ensures var v := Run(s, steps);
            WellFormed(v)
            && Total(v.turns, Is(turn))
               == if turn.cell >= |v.cells| then 0
                  else (if turn.index < v.cells[turn.cell] then 1 else 0)
                       + if turn.index == 0 && v.built[turn.cell] then 1 else 0
  {
    RunInv(s, steps);
    assert Taken(Run(s, steps), turn) == Expected(Run(s, steps), turn);
  }

  // ----- Steps that nothing interrupts.

  /** The counters as the map shows them. */
  function Counters(s: State): map<int, nat>
    requires forall id :: id in s.current ==> s.current[id] < |s.cells|
  {
    map id | id in s.current :: s.cells[s.current[id]]
  }

  /** The goroutine takes its turn as the sequential call does: where the counter stood, and leaves `count`. */
  ghost predicate Takes(s: State, v: State, id: int, count: nat)
    requires WellFormed(s)
  {
    && WellFormed(v) && v.threads == s.threads
    && Counters(v) == Counters(s)[id := count]
    && |v.turns| == |s.turns| + 1 && s.turns <= v.turns
    && v.turns[|s.turns|].index == (if id in Counters(s) then Counters(s)[id] else 0)
    && id in v.current && v.turns[|s.turns|].cell == v.current[id]
  }

  lemma OwnCounters(s: State, a: int, b: int)
    requires WellFormed(s) && a in s.current && b in s.current && a != b
    ensures s.current[a] != s.current[b]
  {
  }

  lemma AddTakes(s: State, t: nat, id: int)
    requires WellFormed(s) && t < |s.threads| && id in s.current && s.threads[t] == Holds(id, s.current[id])
    ensures var v := Apply(s, Add(t));
            WellFormed(v) && Counters(v) == Counters(s)[id := Counters(s)[id] + 1]
  {
    var v := Apply(s, Add(t));
    StepWellFormed(s, Add(t));
    forall other | other in s.current
      ensures Counters(v)[other] == if other == id then Counters(s)[id] + 1 else Counters(s)[other]
    {
      if other != id {
        OwnCounters(s, id, other);
      }
    }
  }

  lemma InstallCounters(s: State, id: int, built: bool)
    requires WellFormed(s) && id !in s.current
    ensures WellFormed(Install(s, id, built)) && Counters(Install(s, id, built)) == Counters(s)[id := 0]
  {
    var v := Install(s, id, built);
    assert v.cells[|s.cells|] == 0 && v.owner[|s.owner|] == id;
    forall other | other in v.current
      ensures Counters(v)[other] == if other == id then 0 else Counters(s)[other]
    {
    }
  }

  lemma RunsTwo(s: State, a: Step, b: Step)
    requires Enabled(s, a) && Enabled(Apply(s, a), b)
    ensures Possible(s, [a, b]) && Run(s, [a, b]) == Apply(Apply(s, a), b)
  {
    var u := Apply(s, a);
    assert [a, b][1..] == [b] && [b][1..] == [];
    assert Possible(u, [b]) && Run(u, [b]) == Run(Apply(u, b), []);
  }

  lemma BackIdle(s: State, u: State, t: nat)
    requires t < |s.threads| && s.threads[t].Idle? && |u.threads| == |s.threads|
    requires forall x :: 0 <= x < |s.threads| && x != t ==> u.threads[x] == s.threads[x]
    ensures u.threads[t := Idle] == s.threads
  {
  }

  /** The goroutine looks, and counts on the counter it found. */
  lemma FoundTakes(s: State, u: State, t: nat, id: int)
    requires WellFormed(s) && WellFormed(u) && t < |s.threads| && s.threads[t].Idle?
    requires id in u.current && u.threads == s.threads[t := Holds(id, u.current[id])] && u.turns == s.turns
    requires Counters(u) == if id in Counters(s) then Counters(s) else Counters(s)[id := 0]
    ensures Enabled(u, Add(t))
    ensures var c := Counters(s);
            Takes(s, Apply(u, Add(t)), id, if id in c then c[id] + 1 else 1)
  {
    BackIdle(s, u, t);
    AddTakes(u, t, id);
    assert Counters(s)[id := 0][id := 1] == Counters(s)[id := 1];
  }

  lemma MissedTakes(s: State, t: nat, id: int)
    requires WellFormed(s) && t < |s.threads| && s.threads[t].Idle? && id !in s.current
    ensures var u := At(s, t, Missed(id));
            Enabled(u, Store(t)) && Takes(s, Apply(u, Store(t)), id, 0)
  {
    var u := At(s, t, Missed(id));
    StepWellFormed(s, Look(t, id));
    StepWellFormed(u, Store(t));
    BackIdle(s, u, t);
    InstallCounters(s, id, true);
  }

  /** A relay build on its own does what `NextForChannel` does. */
  lemma BuildAlone(s: State, t: nat, id: int)
    requires WellFormed(s) && t < |s.threads| && s.threads[t].Idle?
    ensures var steps := [Look(t, id), if id in s.current then Add(t) else Store(t)];
            Possible(s, steps)
            && Takes(s, Run(s, steps), id, if id in Counters(s) then Counters(s)[id] + 1 else 0)
  {
    if id in s.current {
      StepWellFormed(s, Look(t, id));
      FoundTakes(s, Apply(s, Look(t, id)), t, id);
      RunsTwo(s, Look(t, id), Add(t));
    } else {
      MissedTakes(s, t, id);
      RunsTwo(s, Look(t, id), Store(t));
    }
  }

  /** A request of the legacy proxy on its own does what `NextForRoute` does for several keys. */
  lemma RequestAlone(s: State, t: nat, id: int)
    requires WellFormed(s) && t < |s.threads| && s.threads[t].Idle?
    ensures var steps := [Ask(t, id), Add(t)];
            Possible(s, steps)
            && Takes(s, Run(s, steps), id, if id in Counters(s) then Counters(s)[id] + 1 else 1)
  {
    StepWellFormed(s, Ask(t, id));
    if id !in s.current {
      InstallCounters(s, id, false);
    }
    FoundTakes(s, Apply(s, Ask(t, id)), t, id);
    RunsTwo(s, Ask(t, id), Add(t));
  }

  // ----- How many counters a number gets.

  /** The counters ever made for the number. */
  function Made(s: State, id: int): int {
    Total(s.owner, Is(id))
  }

  /** The builds that have found no counter and not stored theirs yet. */
  function Missing(s: State, id: int): int {
    Total(s.threads, Is(Missed(id)))
  }

  /** The proxy asks for the number. */
  predicate Asks(steps: seq<Step>, id: int) {
    exists i :: 0 <= i < |steps| && steps[i].Ask? && steps[i].id == id
  }

  predicate AtMost(s: State, steps: seq<Step>, id: int, k: nat)
    requires Possible(s, steps)
    decreases steps
  {
    Missing(s, id) <= k && (steps == [] || AtMost(Apply(s, steps[0]), steps[1..], id, k))
  }

  /** `bound` is what the number may still get. */
  predicate Bounded(s: State, id: int, k: nat, bound: nat) {
    if id in s.current then Made(s, id) + Missing(s, id) <= bound else Made(s, id) == 0 && Missing(s, id) <= k
  }

  lemma StepBounded(s: State, step: Step, id: int, k: nat, bound: nat)
    requires Bounded(s, id, k, bound) && Enabled(s, step) && Missing(Apply(s, step), id) <= k
    requires bound >= if step.Ask? && step.id == id then k + 1 else k
    ensures Bounded(Apply(s, step), id, k, bound)
  {
    var v := Apply(s, step);
    TotalSet(s.threads, step.t, v.threads[step.t], Is(Missed(id)));
    if |v.owner| > |s.owner| {
      TotalPush(s.owner, v.owner[|s.owner|], Is(id));
    }
  }

  lemma {:induction false} RunBounded(s: State, steps: seq<Step>, id: int, k: nat, bound: nat)
    requires Bounded(s, id, k, bound) && Possible(s, steps) && AtMost(s, steps, id, k)
    requires bound >= if Asks(steps, id) then k + 1 else k
    ensures Bounded(Run(s, steps), id, k, bound)
    decreases steps
  {
    if steps == [] {
    } else {
      assert AtMost(Apply(s, steps[0]), steps[1..], id, k);
      assert forall i :: 0 <= i < |steps[1..]| ==> steps[1..][i] == steps[i + 1];
      StepBounded(s, steps[0], id, k, bound);
      RunBounded(Apply(s, steps[0]), steps[1..], id, k, bound);
    }
  }

  /**
    A number gets no more counters than builds stand at once between finding
    none and storing theirs, and one more if the proxy asks for it too: builds
    that wait for each other all count on one.
   */
  lemma CountersAreBounded(s: State, steps: seq<Step>, id: int, k: nat)
    requires Initial(s) && Possible(s, steps) && AtMost(s, steps, id, k)
    ensures Made(Run(s, steps), id) <= if Asks(steps, id) then k + 1 else k
  {
    TotalZero(s.threads, Is(Missed(id)));
    RunBounded(s, steps, id, k, if Asks(steps, id) then k + 1 else k);
    CountNotNegative(Run(s, steps).threads, Missed(id));
  }

  // ----- The bound is met.

  /** Of `k` builds, `i` have found no counter and `j` of those have stored theirs. */
  function Racers(id: int, k: nat, i: nat, j: nat): State {
    State(seq(j, _ => 0), seq(j, _ => id), seq(j, _ => true), if j == 0 then map[] else map[id := j - 1],
          seq(k, x => if j <= x < i then Missed(id) else Idle), seq(j, x requires x >= 0 => Turn(x, 0)))
  }

  ghost predicate Goes(s: State, steps: seq<Step>, v: State, id: int, k: nat) {
    && Possible(s, steps) && Run(s, steps) == v && AtMost(s, steps, id, k)
    && forall i :: 0 <= i < |steps| ==> !steps[i].Ask?
  }

  lemma {:induction false} MissingAtMost(threads: seq<Pc>, id: int)
    ensures Total(threads, Is(Missed(id))) <= |threads|
  {
    if threads == [] {
    } else {
      MissingAtMost(threads[..|threads| - 1], id);
    }
  }

  lemma OneMore(s: State, step: Step, rest: seq<Step>, v: State, id: int, k: nat)
    requires |s.threads| <= k && Enabled(s, step) && !step.Ask? && Goes(Apply(s, step), rest, v, id, k)
    ensures Goes(s, [step] + rest, v, id, k)
  {
    MissingAtMost(s.threads, id);
    assert ([step] + rest)[1..] == rest;
  }

  lemma StoreOne(id: int, k: nat, j: nat)
    requires j < k
    ensures Enabled(Racers(id, k, k, j), Store(j)) && Apply(Racers(id, k, k, j), Store(j)) == Racers(id, k, k, j + 1)
  {
    var v, w := Apply(Racers(id, k, k, j), Store(j)), Racers(id, k, k, j + 1);
    assert v.threads == w.threads && v.turns == w.turns && v.cells == w.cells;
    assert v.owner == w.owner && v.built == w.built && v.current == w.current;
  }

  lemma LookOne(id: int, k: nat, i: nat)
    requires i < k
    ensures Enabled(Racers(id, k, i, 0), Look(i, id))
    ensures Apply(Racers(id, k, i, 0), Look(i, id)) == Racers(id, k, i + 1, 0)
  {
    assert Apply(Racers(id, k, i, 0), Look(i, id)).threads == Racers(id, k, i + 1, 0).threads;
  }

  lemma {:induction false} StoreAll(id: int, k: nat, j: nat) returns (steps: seq<Step>)
    requires j <= k
    ensures Goes(Racers(id, k, k, j), steps, Racers(id, k, k, k), id, k)
    decreases k - j
  {
    if j == k {
      steps := [];
      MissingAtMost(Racers(id, k, k, k).threads, id);
    } else {
      var rest := StoreAll(id, k, j + 1);
      StoreOne(id, k, j);
      OneMore(Racers(id, k, k, j), Store(j), rest, Racers(id, k, k, k), id, k);
      steps := [Store(j)] + rest;
    }
  }

  lemma {:induction false} LookAll(id: int, k: nat, i: nat) returns (steps: seq<Step>)
    requires i <= k
    ensures Goes(Racers(id, k, i, 0), steps, Racers(id, k, k, k), id, k)
    decreases k - i
  {
    if i == k {
      steps := StoreAll(id, k, 0);
    } else {
      var rest := LookAll(id, k, i + 1);
      LookOne(id, k, i);
      OneMore(Racers(id, k, i, 0), Look(i, id), rest, Racers(id, k, k, k), id, k);
      steps := [Look(i, id)] + rest;
    }
  }

  lemma {:induction false} AllHis(owner: seq<int>, id: int)
    requires forall i :: 0 <= i < |owner| ==> owner[i] == id
    ensures Total(owner, Is(id)) == |owner|
  {
    if owner == [] {
    } else {
      AllHis(owner[..|owner| - 1], id);
    }
  }

  /** For every `k` some run of `k` builds makes `k` counters, and all of the builds start at the first key. */
  lemma CountersAreReached(id: int, k: nat) returns (s: State, steps: seq<Step>)
    ensures Initial(s) && Possible(s, steps) && AtMost(s, steps, id, k) && !Asks(steps, id)
    ensures var v := Run(s, steps);
            && Made(v, id) == k && |v.turns| == k
            && forall i :: 0 <= i < k ==> v.turns[i].index == 0
  {
    s := Racers(id, k, 0, 0);
    steps := LookAll(id, k, 0);
    AllHis(Racers(id, k, k, k).owner, id);
  }
}
