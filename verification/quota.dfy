/**
  Charging with requests in flight.  A request is checked when it arrives and
  charged when its answer is back; between the two any number of other requests
  may be checked or charged, one locked call at a time.
 */
module Quota {
  import opened Accounts
  import opened Sums
  import Bytes

  /** Where one request stands between two locked calls. */
  datatype Flight =
    | Idle
    | Holding(key: string, owner: string)    // its token passed the check on a copy
    | InFlight(key: string, owner: string)   // its user passed the check too
    | Settled(owner: string, cost: nat)      // its token is charged, its user not yet

  datatype State = State(users: seq<User>, tokens: seq<Token>, flights: seq<Flight>)

  datatype Step =
    | Look(t: nat, key: string, expired: bool)
    | Admit(t: nat)
    | Drop(t: nat)                            // refused by a later check, or the upstream failed
    | Settle(t: nat, cost: nat)
    | Charge(t: nat)

  predicate Enabled(s: State, step: Step) {
    && step.t < |s.flights|
    && match step
       case Look(t, _, _) => s.flights[t].Idle?
       case Admit(t) => s.flights[t].Holding?
       case Drop(t) => s.flights[t].Holding? || s.flights[t].InFlight?
       case Settle(t, _) => s.flights[t].InFlight?
       case Charge(t) => s.flights[t].Settled?
  }

  function At(s: State, t: nat, f: Flight): State
    requires t < |s.flights|
  {
    s.(flights := s.flights[t := f])
  }

  function Apply(s: State, step: Step): State
    requires Enabled(s, step)
  {
    match step
    case Look(t, key, expired) =>
      var i := FirstToken(s.tokens, key);
      if i < |s.tokens| && !expired && TokenRemains(s.tokens[i]) then At(s, t, Holding(key, s.tokens[i].owner)) else s
    case Admit(t) =>
      var Holding(key, owner) := s.flights[t];
      At(s, t, if QuotaAllowed(s.users, owner) then InFlight(key, owner) else Idle)
    case Drop(t) => At(s, t, Idle)
    case Settle(t, cost) =>
      var InFlight(key, owner) := s.flights[t];
      At(s.(tokens := UseTokens(s.tokens, key, cost)), t, Settled(owner, cost))
    case Charge(t) =>
      var Settled(owner, cost) := s.flights[t];
      At(s.(users := AddUsed(s.users, owner, cost)), t, Idle)
  }

  function UserOf(s: State, name: string): User
    requires Exists(s.users, name)
  {
    s.users[FirstUser(s.users, name)]
  }

  predicate Bears(f: Flight, name: string) {
    (f.InFlight? || f.Settled?) && f.owner == name
  }

  function Weighs(name: string): Flight -> int {
    (f: Flight) => if Bears(f, name) then 1 else 0
  }

  /** The user's requests in flight. */
  function Load(s: State, name: string): int {
    Total(s.flights, Weighs(name))
  }

  predicate Quiet(s: State) {
    forall t :: 0 <= t < |s.flights| ==> s.flights[t].Idle?
  }

  // ----- Runs in which the user never has more than `k` requests in flight.

  predicate Possible(s: State, steps: seq<Step>)
    decreases steps
  {
    steps == [] || (Enabled(s, steps[0]) && Possible(Apply(s, steps[0]), steps[1..]))
  }

  function Run(s: State, steps: seq<Step>): State
    requires Possible(s, steps)
    decreases steps
  {
    if steps == [] then s else Run(Apply(s, steps[0]), steps[1..])
  }

  predicate AtMost(s: State, steps: seq<Step>, name: string, k: nat)
    requires Possible(s, steps)
    decreases steps
  {
    Load(s, name) <= k && (steps == [] || AtMost(Apply(s, steps[0]), steps[1..], name, k))
  }

  predicate CostsAtMost(steps: seq<Step>, c: nat) {
    forall i :: 0 <= i < |steps| && steps[i].Settle? ==> steps[i].cost <= c
  }

  /** A user with a quota; the empty name is never charged. */
  predicate Metered(s: State, name: string) {
    name != "" && Exists(s.users, name) && UserOf(s, name).quota >= 0
  }

  // ----- What charging does to the records.

  lemma Charged(users: seq<User>, owner: string, cost: int, name: string)
    requires name != "" && Exists(users, name)
    ensures var more := AddUsed(users, owner, cost);
            && Exists(more, name) && FirstUser(more, name) == FirstUser(users, name)
            && more[FirstUser(more, name)]
               == users[FirstUser(users, name)].(used := users[FirstUser(users, name)].used +
                    if owner == name then cost else 0)
  {
    SameFirst(users, AddUsed(users, owner, cost), name);
  }

  // ----- Who is admitted.

  /** A token is found by the first of its key, not expired, and unlimited, unmetered or below its quota. */
  lemma LookAdmits(s: State, t: nat, key: string, expired: bool)
    requires Enabled(s, Look(t, key, expired))
    ensures var i, f := FirstToken(s.tokens, key), Apply(s, Look(t, key, expired)).flights[t];
            && (f.Holding? <==>
                 && i < |s.tokens| && !expired
                 && (s.tokens[i].unlimited != 0 || s.tokens[i].quota < 0 || s.tokens[i].used < s.tokens[i].quota))
            && (f.Holding? ==> f == Holding(key, s.tokens[i].owner)) && (!f.Holding? ==> f.Idle?)
  {
  }

  /** Its owner is admitted if unknown or nameless, or else enabled, and unmetered or below the quota. */
  lemma AdmitAdmits(s: State, t: nat)
    requires Enabled(s, Admit(t))
    ensures var name := s.flights[t].owner;
            var i, f := FirstUser(s.users, name), Apply(s, Admit(t)).flights[t];
            && (f.InFlight? <==>
                 || name == "" || i == |s.users|
                 || (s.users[i].status == 1 && (s.users[i].quota < 0 || s.users[i].used < s.users[i].quota)))
            && (f.InFlight? ==> f == InFlight(s.flights[t].key, name)) && (!f.InFlight? ==> f.Idle?)
  {
  }

  /** The first user of that name is not enabled. */
  predicate Disabled(s: State, name: string) {
    var i := FirstUser(s.users, name);
    name != "" && i < |s.users| && s.users[i].status != 1
  }

  lemma StepDisabled(s: State, step: Step, name: string)
    requires Disabled(s, name) && Load(s, name) == 0 && Enabled(s, step)
    ensures Disabled(Apply(s, step), name) && Load(Apply(s, step), name) == 0
  {
    LoadMoves(s, step, name);
    NoneBears(s.flights, name);
    StepUser(s, step, name);
  }

  lemma {:induction false} NoneBears(flights: seq<Flight>, name: string)
    ensures Total(flights, Weighs(name)) >= 0
    ensures Total(flights, Weighs(name)) == 0 <==> forall t :: 0 <= t < |flights| ==> !Bears(flights[t], name)
  {
    if flights == [] {
    } else {
      NoneBears(flights[..|flights| - 1], name);
    }
  }

  lemma {:induction false} RunDisabled(s: State, steps: seq<Step>, name: string)
    requires Disabled(s, name) && Load(s, name) == 0 && Possible(s, steps)
    ensures Disabled(Run(s, steps), name) && Load(Run(s, steps), name) == 0
    decreases steps
  {
    if steps == [] {
    } else {
      StepDisabled(s, steps[0], name);
      RunDisabled(Apply(s, steps[0]), steps[1..], name);
    }
  }

  /** Whatever other requests do, none of a user who is not enabled is ever sent on or charged. */
  lemma DisabledNeverAdmitted(s: State, steps: seq<Step>, i: nat)
    requires i < |s.users| && s.users[i].name != "" && s.users[i].status != 1
    requires forall j :: 0 <= j < i ==> s.users[j].name != s.users[i].name
    requires Quiet(s) && Possible(s, steps)
    ensures var v := Run(s, steps);
            && (forall t :: 0 <= t < |v.flights| && (v.flights[t].InFlight? || v.flights[t].Settled?) ==>
                 v.flights[t].owner != s.users[i].name)
            && i < |v.users| && v.users[i] == s.users[i]
  {
    var name := s.users[i].name;
    assert FirstUser(s.users, name) == i;
    TotalZero(s.flights, Weighs(name));
    RunDisabled(s, steps, name);
    NoneBears(Run(s, steps).flights, name);
    RunUncharged(s, steps, i);
  }

  lemma {:induction false} RunUncharged(s: State, steps: seq<Step>, i: nat)
    requires i < |s.users| && FirstUser(s.users, s.users[i].name) == i && Possible(s, steps)
    requires Disabled(s, s.users[i].name) && Load(s, s.users[i].name) == 0
    ensures i < |Run(s, steps).users| && Run(s, steps).users[i] == s.users[i]
    decreases steps
  {
    if steps == [] {
    } else {
      var name := s.users[i].name;
      StepDisabled(s, steps[0], name);
      NoneBears(s.flights, name);
      SameFirst(s.users, Apply(s, steps[0]).users, name);
      RunUncharged(Apply(s, steps[0]), steps[1..], i);
    }
  }

  // ----- The overshoot bound.

  function Exposure(s: State, name: string, c: nat): int
    requires Exists(s.users, name)
  {
    UserOf(s, name).used + c * Load(s, name)
  }

  predicate Small(s: State, c: nat) {
    forall t :: 0 <= t < |s.flights| && s.flights[t].Settled? ==> s.flights[t].cost <= c
  }

  lemma LoadMoves(s: State, step: Step, name: string)
    requires Enabled(s, step)
    ensures var v := Apply(s, step);
            && |v.flights| == |s.flights|
            && Load(v, name) == Load(s, name) - (if Bears(s.flights[step.t], name) then 1 else 0)
                                + (if Bears(v.flights[step.t], name) then 1 else 0)
  {
    var v := Apply(s, step);
    TotalSet(s.flights, step.t, v.flights[step.t], Weighs(name));
    assert s.flights[step.t := s.flights[step.t]] == s.flights;
  }

  /** What a step does to one user's account. */
  lemma StepUser(s: State, step: Step, name: string)
    requires name != "" && Exists(s.users, name) && Enabled(s, step)
    ensures var v := Apply(s, step);
            && Exists(v.users, name)
            && UserOf(v, name) == UserOf(s, name).(used := UserOf(s, name).used +
                 if step.Charge? && s.flights[step.t].owner == name then s.flights[step.t].cost else 0)
  {
    if step.Charge? {
      Charged(s.users, s.flights[step.t].owner, s.flights[step.t].cost, name);
    }
  }

  lemma StepSmall(s: State, step: Step, c: nat)
    requires Small(s, c) && Enabled(s, step) && (step.Settle? ==> step.cost <= c)
    ensures Small(Apply(s, step), c)
  {
  }

  lemma StepExposure(s: State, step: Step, name: string, c: nat, k: nat)
    requires Metered(s, name) && Small(s, c) && Enabled(s, step)
    requires Load(Apply(s, step), name) <= k
    ensures var v := Apply(s, step);
            && Metered(v, name)
            && UserOf(v, name).quota == UserOf(s, name).quota
            && Exposure(v, name, c) <= Bytes.Max(Exposure(s, name, c), UserOf(s, name).quota - 1 + k * c)
  {
    StepUser(s, step, name);
    LoadMoves(s, step, name);
    var l, m := Load(s, name), Load(Apply(s, step), name);
    if m == l - 1 {
      assert c * l == c * m + c;
    } else if m > l {
      assert step.Admit? && UserOf(s, name).used <= UserOf(s, name).quota - 1;
      AtMostTimes(c, m, k);
    }
  }

  lemma AtMostTimes(c: nat, m: int, k: int)
    requires m <= k
    ensures c * m <= k * c
  {
    assert k * c - c * m == c * (k - m);
  }

  lemma {:induction false} RunExposure(s: State, steps: seq<Step>, name: string, c: nat, k: nat)
    requires Metered(s, name) && Small(s, c) && Possible(s, steps)
    requires AtMost(s, steps, name, k) && CostsAtMost(steps, c)
    ensures var v := Run(s, steps);
            && Metered(v, name)
            && UserOf(v, name).quota == UserOf(s, name).quota
            && Exposure(v, name, c) <= Bytes.Max(Exposure(s, name, c), UserOf(s, name).quota - 1 + k * c)
    decreases steps
  {
    if steps == [] {
    } else {
      assert AtMost(Apply(s, steps[0]), steps[1..], name, k);
      StepExposure(s, steps[0], name, c, k);
      StepSmall(s, steps[0], c);
      RunExposure(Apply(s, steps[0]), steps[1..], name, c, k);
    }
  }

  /**
    A user with quota `q` who never has more than `k` requests in flight, each
    costing at most `c`, is never charged past `q - 1 + k * c`; what is still in
    flight is already within the bound.
   */
  lemma OvershootIsBounded(s: State, steps: seq<Step>, name: string, c: nat, k: nat)
    requires Metered(s, name) && Quiet(s) && Possible(s, steps)
    requires AtMost(s, steps, name, k) && CostsAtMost(steps, c)
    ensures var v := Run(s, steps);
            && Exists(v.users, name)
            && UserOf(v, name).used + c * Load(v, name)
               <= Bytes.Max(UserOf(s, name).used, UserOf(s, name).quota - 1 + k * c)
  {
    TotalZero(s.flights, Weighs(name));
    RunExposure(s, steps, name, c, k);
  }

  // ----- The bound is met.

  /** One user just below the quota; requests `j` to `i - 1` in flight, those below `j` charged. */
  function Crowd(q: int, c: nat, k: nat, i: nat, j: nat): State {
    State([User("u", "user", 1, q, q - 1 + j * c)],
          [Token("t", "u", 1, 1, 0, j * c)],
          seq(k, x => if j <= x < i then InFlight("t", "u") else Idle))
  }

  lemma {:induction false} LoadAtMost(flights: seq<Flight>, name: string)
    ensures Total(flights, Weighs(name)) <= |flights|
  {
    if flights == [] {
    } else {
      LoadAtMost(flights[..|flights| - 1], name);
    }
  }

  lemma Enter(q: int, c: nat, k: nat, i: nat)
    requires q >= 1 && i < k
    ensures var s := Crowd(q, c, k, i, 0);
            && Enabled(s, Look(i, "t", false))
            && Enabled(Apply(s, Look(i, "t", false)), Admit(i))
            && Apply(Apply(s, Look(i, "t", false)), Admit(i)) == Crowd(q, c, k, i + 1, 0)
  {
    var s := Crowd(q, c, k, i, 0);
    var v := Apply(s, Look(i, "t", false));
    assert Apply(v, Admit(i)).flights == Crowd(q, c, k, i + 1, 0).flights;
  }

  lemma Leave(q: int, c: nat, k: nat, j: nat)
    requires q >= 1 && j < k
    ensures var s := Crowd(q, c, k, k, j);
            && Enabled(s, Settle(j, c))
            && Enabled(Apply(s, Settle(j, c)), Charge(j))
            && Apply(Apply(s, Settle(j, c)), Charge(j)) == Crowd(q, c, k, k, j + 1)
  {
    var s := Crowd(q, c, k, k, j);
    var v := Apply(s, Settle(j, c));
    var w := Crowd(q, c, k, k, j + 1);
    assert (j + 1) * c == j * c + c;
    assert Apply(v, Charge(j)).flights == w.flights;
    assert Apply(v, Charge(j)).users == w.users;
  }

  lemma TwoMore(s: State, a: Step, b: Step, rest: seq<Step>, name: string, k: nat)
    requires |s.flights| <= k && Enabled(s, a) && Enabled(Apply(s, a), b)
    requires Possible(Apply(Apply(s, a), b), rest) && AtMost(Apply(Apply(s, a), b), rest, name, k)
    ensures Possible(s, [a, b] + rest) && AtMost(s, [a, b] + rest, name, k)
    ensures Run(s, [a, b] + rest) == Run(Apply(Apply(s, a), b), rest)
  {
    var all := [a, b] + rest;
    assert all[1..] == [b] + rest && ([b] + rest)[1..] == rest;
    LoadAtMost(s.flights, name);
    LoadAtMost(Apply(s, a).flights, name);
    assert Possible(Apply(s, a), [b] + rest) && Run(Apply(s, a), [b] + rest) == Run(Apply(Apply(s, a), b), rest);
    assert AtMost(Apply(s, a), [b] + rest, name, k);
  }

  lemma {:induction false} LeaveAll(q: int, c: nat, k: nat, j: nat) returns (steps: seq<Step>)
    requires q >= 1 && j <= k
    ensures var s := Crowd(q, c, k, k, j);
            && Possible(s, steps) && AtMost(s, steps, "u", k) && CostsAtMost(steps, c)
            && Run(s, steps) == Crowd(q, c, k, k, k)
    decreases k - j
  {
    if j == k {
      steps := [];
      LoadAtMost(Crowd(q, c, k, k, k).flights, "u");
    } else {
      var rest := LeaveAll(q, c, k, j + 1);
      Leave(q, c, k, j);
      TwoMore(Crowd(q, c, k, k, j), Settle(j, c), Charge(j), rest, "u", k);
      steps := [Settle(j, c), Charge(j)] + rest;
    }
  }

  lemma {:induction false} EnterAll(q: int, c: nat, k: nat, i: nat) returns (steps: seq<Step>)
    requires q >= 1 && i <= k
    ensures var s := Crowd(q, c, k, i, 0);
            && Possible(s, steps) && AtMost(s, steps, "u", k) && CostsAtMost(steps, c)
            && Run(s, steps) == Crowd(q, c, k, k, k)
    decreases k - i
  {
    if i == k {
      steps := LeaveAll(q, c, k, 0);
    } else {
      var rest := EnterAll(q, c, k, i + 1);
      Enter(q, c, k, i);
      TwoMore(Crowd(q, c, k, i, 0), Look(i, "t", false), Admit(i), rest, "u", k);
      steps := [Look(i, "t", false), Admit(i)] + rest;
    }
  }

  /** For every quota, cost and number of requests some run ends exactly at the bound. */
  lemma OvershootIsReached(q: int, c: nat, k: nat) returns (s: State, steps: seq<Step>)
    requires q >= 1
    ensures Quiet(s) && Metered(s, "u") && UserOf(s, "u").quota == q && UserOf(s, "u").used == q - 1
    ensures Possible(s, steps) && AtMost(s, steps, "u", k) && CostsAtMost(steps, c)
    ensures Exists(Run(s, steps).users, "u") && UserOf(Run(s, steps), "u").used == q - 1 + k * c
  {
    s := Crowd(q, c, k, 0, 0);
    steps := EnterAll(q, c, k, 0);
  }

  // ----- Tokens are checked again under the lock.

  lemma UseKeeps(tokens: seq<Token>, key: string, cost: nat, c: nat, i: nat)
    requires i < |tokens| && cost <= c
    requires tokens[i].unlimited == 0 && tokens[i].quota >= 0
    ensures var more := UseTokens(tokens, key, cost);
            && |more| == |tokens|
            && more[i].(used := 0) == tokens[i].(used := 0)
            && more[i].used <= Bytes.Max(tokens[i].used, tokens[i].quota - 1 + c)
  {
  }

  /** A metered token overshoots by one request at most, however many are in flight. */
  lemma {:induction false} TokenOvershootsOnce(s: State, steps: seq<Step>, i: nat, c: nat)
    requires Possible(s, steps) && CostsAtMost(steps, c)
    requires i < |s.tokens| && s.tokens[i].unlimited == 0 && s.tokens[i].quota >= 0
    ensures i < |Run(s, steps).tokens|
    ensures Run(s, steps).tokens[i].used <= Bytes.Max(s.tokens[i].used, s.tokens[i].quota - 1 + c)
    decreases steps
  {
    if steps == [] {
    } else {
      if steps[0].Settle? {
        UseKeeps(s.tokens, s.flights[steps[0].t].key, steps[0].cost, c, i);
      }
      TokenOvershootsOnce(Apply(s, steps[0]), steps[1..], i, c);
    }
  }

  // ----- A user is charged for everything the user's tokens are charged for.

  function SpentFor(name: string): Token -> int {
    (t: Token) => if t.owner == name then t.used else 0
  }

  function DueFrom(name: string): Flight -> int {
    (f: Flight) => if f.Settled? && f.owner == name then f.cost else 0
  }

  /** What the user was or is about to be charged beyond the user's tokens. */
  function Gap(s: State, name: string): int
    requires Exists(s.users, name)
  {
    UserOf(s, name).used + Total(s.flights, DueFrom(name)) - Total(s.tokens, SpentFor(name))
  }

  /** The cost of the step if it is one the user's token refuses. */
  function RefusedBy(s: State, step: Step, name: string): nat
    requires Enabled(s, step)
  {
    if step.Settle? && s.flights[step.t].owner == name && !UseOutcome(s.tokens, s.flights[step.t].key).Used?
    then step.cost else 0
  }

  function Refused(s: State, steps: seq<Step>, name: string): nat
    requires Possible(s, steps)
    decreases steps
  {
    if steps == [] then 0 else RefusedBy(s, steps[0], name) + Refused(Apply(s, steps[0]), steps[1..], name)
  }

  predicate OwnsKey(tokens: seq<Token>, key: string, owner: string) {
    var i := FirstToken(tokens, key);
    i < |tokens| && tokens[i].owner == owner
  }

  /** A request carries the owner of the token it presented. */
  ghost predicate Carried(s: State) {
    forall t :: 0 <= t < |s.flights| && (s.flights[t].Holding? || s.flights[t].InFlight?) ==>
      OwnsKey(s.tokens, s.flights[t].key, s.flights[t].owner)
  }

  lemma UseKeepsKeys(tokens: seq<Token>, key: string, cost: int)
    ensures var more := UseTokens(tokens, key, cost);
            forall k, owner :: OwnsKey(tokens, k, owner) ==> OwnsKey(more, k, owner)
  {
    var more := UseTokens(tokens, key, cost);
    forall k, owner | OwnsKey(tokens, k, owner)
      ensures OwnsKey(more, k, owner)
    {
      SameFirstToken(tokens, more, k);
    }
  }

  lemma SettleGap(s: State, t: nat, cost: nat, name: string)
    requires Carried(s) && t < |s.flights| && s.flights[t].InFlight?
    ensures var tokens := UseTokens(s.tokens, s.flights[t].key, cost);
            Total(tokens, SpentFor(name)) == Total(s.tokens, SpentFor(name))
            + (if s.flights[t].owner == name then cost else 0) - RefusedBy(s, Settle(t, cost), name)
  {
    var key := s.flights[t].key;
    var tokens := UseTokens(s.tokens, key, cost);
    assert OwnsKey(s.tokens, key, s.flights[t].owner);
    if UseOutcome(s.tokens, key).Used? {
      var i := FirstToken(s.tokens, key);
      TotalSet(s.tokens, i, tokens[i], SpentFor(name));
    }
  }

  lemma StepGap(s: State, step: Step, name: string)
    requires name != "" && Exists(s.users, name) && Carried(s) && Enabled(s, step)
    ensures var v := Apply(s, step);
            && Exists(v.users, name) && Carried(v)
            && Gap(v, name) == Gap(s, name) + RefusedBy(s, step, name)
  {
    var v := Apply(s, step);
    TotalSet(s.flights, step.t, v.flights[step.t], DueFrom(name));
    assert s.flights[step.t := s.flights[step.t]] == s.flights;
    match step
    case Settle(t, cost) =>
      UseKeepsKeys(s.tokens, s.flights[t].key, cost);
      SettleGap(s, t, cost, name);
    case Charge(t) => Charged(s.users, s.flights[t].owner, s.flights[t].cost, name);
    case _ =>
  }

  lemma {:induction false} RunGap(s: State, steps: seq<Step>, name: string)
    requires name != "" && Exists(s.users, name) && Carried(s) && Possible(s, steps)
    ensures var v := Run(s, steps);
            && Exists(v.users, name)
            && Gap(v, name) == Gap(s, name) + Refused(s, steps, name)
    decreases steps
  {
    if steps == [] {
    } else {
      StepGap(s, steps[0], name);
      RunGap(Apply(s, steps[0]), steps[1..], name);
    }
  }

  /**
    From a quiet moment on, a user is charged, or about to be charged, exactly
    what the user's tokens are charged plus what those tokens refused; so the
    tokens' total never overtakes the user's by more than what is still due.
   */
  lemma UserCoversTokens(s: State, steps: seq<Step>, name: string)
    requires name != "" && Exists(s.users, name) && Quiet(s) && Possible(s, steps)
    ensures var v := Run(s, steps);
            && Exists(v.users, name)
            && UserOf(v, name).used + Total(v.flights, DueFrom(name)) - UserOf(s, name).used
               == Total(v.tokens, SpentFor(name)) - Total(s.tokens, SpentFor(name)) + Refused(s, steps, name)
            && (Total(s.tokens, SpentFor(name)) <= UserOf(s, name).used ==>
                Total(v.tokens, SpentFor(name)) <= UserOf(v, name).used + Total(v.flights, DueFrom(name)))
            && (Quiet(v) ==> Total(v.flights, DueFrom(name)) == 0)
  {
    TotalZero(s.flights, DueFrom(name));
    RunGap(s, steps, name);
    if Quiet(Run(s, steps)) {
      TotalZero(Run(s, steps).flights, DueFrom(name));
    }
  }

  // ----- A request on its own, and the end of every request.

  /** The request passes both looks. */
  predicate Passes(s: State, key: string) {
    var i := FirstToken(s.tokens, key);
    && i < |s.tokens|
    && (s.tokens[i].unlimited != 0 || s.tokens[i].quota < 0 || s.tokens[i].used < s.tokens[i].quota)
    && var u := FirstUser(s.users, s.tokens[i].owner);
       s.tokens[i].owner == "" || u == |s.users|
       || (s.users[u].status == 1 && (s.users[u].quota < 0 || s.users[u].used < s.users[u].quota))
  }

  /**
    An admitted request that nothing interrupts charges its cost to its token,
    unless the token is not of status 1, and to the token's owner in any case.
   */
  lemma RequestAlone(s: State, t: nat, key: string, cost: nat)
    requires t < |s.flights| && s.flights[t].Idle? && Passes(s, key)
    ensures var steps := [Look(t, key, false), Admit(t), Settle(t, cost), Charge(t)];
            var i := FirstToken(s.tokens, key);
            var u := FirstUser(s.users, s.tokens[i].owner);
            && Possible(s, steps) && Run(s, steps).flights == s.flights
            && Run(s, steps).tokens == (if s.tokens[i].status != 1 then s.tokens
                                        else s.tokens[i := s.tokens[i].(used := s.tokens[i].used + cost)])
            && Run(s, steps).users == if s.tokens[i].owner == "" || u == |s.users| then s.users
                                      else s.users[u := s.users[u].(used := s.users[u].used + cost)]
  {
    var owner := s.tokens[FirstToken(s.tokens, key)].owner;
    var a := At(s, t, Holding(key, owner));
    var b := At(s, t, InFlight(key, owner));
    var c := At(s.(tokens := UseTokens(s.tokens, key, cost)), t, Settled(owner, cost));
    var d := s.(tokens := UseTokens(s.tokens, key, cost), users := AddUsed(s.users, owner, cost));
    assert s.flights[t := Idle] == s.flights;
    assert a.flights[t := InFlight(key, owner)] == b.flights;
    RunsFour(s, Look(t, key, false), Admit(t), Settle(t, cost), Charge(t), a, b, c, d);
  }

  lemma RunsFour(s: State, i: Step, j: Step, k: Step, l: Step, a: State, b: State, c: State, d: State)
    requires Enabled(s, i) && Apply(s, i) == a && Enabled(a, j) && Apply(a, j) == b
    requires Enabled(b, k) && Apply(b, k) == c && Enabled(c, l) && Apply(c, l) == d
    ensures Possible(s, [i, j, k, l]) && Run(s, [i, j, k, l]) == d
  {
    assert [i, j, k, l][1..] == [j, k, l] && [j, k, l][1..] == [k, l] && [k, l][1..] == [l] && [l][1..] == [];
    assert Possible(d, []) && Run(d, []) == d;
    assert Possible(c, [l]) && Run(c, [l]) == d;
    assert Possible(b, [k, l]) && Run(b, [k, l]) == d;
    assert Possible(a, [j, k, l]) && Run(a, [j, k, l]) == d;
  }

  /** From any state every request can come to its end without another charge to a token. */
  lemma {:induction false} ComesToRest(s: State, t: nat) returns (steps: seq<Step>)
    requires t <= |s.flights| && forall x :: t <= x < |s.flights| ==> s.flights[x].Idle?
    ensures Possible(s, steps) && Quiet(Run(s, steps)) && Run(s, steps).tokens == s.tokens
    decreases t
  {
    if t == 0 {
      steps := [];
    } else if s.flights[t - 1].Idle? {
      steps := ComesToRest(s, t - 1);
    } else {
      var last := if s.flights[t - 1].Settled? then Charge(t - 1) else Drop(t - 1);
      var rest := ComesToRest(Apply(s, last), t - 1);
      steps := [last] + rest;
      assert steps[1..] == rest;
    }
  }
}
