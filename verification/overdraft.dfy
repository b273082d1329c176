/**
  Transfers that overlap.  Each reads the sender's balance, compares, and takes
  the amount later; what several read at once they may all take, and the relay
  may charge in between.
 */
module Overdraft {
  import opened Accounts
  import opened Sums
  import opened Ledger
  import opened Turns

  /** The goroutine will take the amount from the sender, unless the recipient is missing. */
  predicate Holds(script: seq<Action>, sender: string) {
    && script != []
    && ((script[0].FindRecipient? && script[0].sender == sender && script[0].remaining >= script[0].amount)
        || (script[0].Debit? && script[0].user == sender))
  }

  function Holder(sender: string): seq<Action> -> int {
    (script: seq<Action>) => if Holds(script, sender) then 1 else 0
  }

  function Taking(sender: string): seq<Action> -> int {
    (script: seq<Action>) => if Holds(script, sender) then script[0].amount else 0
  }

  /** The sender's transfers between their look at the balance and their debit. */
  function Load(s: State, sender: string): int {
    Total(s.scripts, Holder(sender))
  }

  /** What those will take. */
  function Due(s: State, sender: string): int {
    Total(s.scripts, Taking(sender))
  }

  // ----- Runs in which the sender never has more than `k` transfers past their look.

  /** Transfers take at most `most`. */
  predicate Within(r: Request, most: nat) {
    match r
    case Transfer(sender, _, amount) => sender != "" && amount <= most
    case Relay(_, cost) => cost >= 0
    case _ => true
  }

  predicate AllWithin(steps: seq<Step>, most: nat) {
    forall i :: 0 <= i < |steps| && steps[i].Begin? ==> Within(steps[i].request, most)
  }

  predicate AtMost(s: State, steps: seq<Step>, sender: string, k: nat)
    requires Possible(s, steps)
    decreases steps
  {
    Load(s, sender) <= k && (steps == [] || AtMost(Apply(s, steps[0]), steps[1..], sender, k))
  }

  /** A look or a debit stands only at the head of a script. */
  predicate Tame(script: seq<Action>, most: nat) {
    forall i :: 0 <= i < |script| ==> TameCall(script[i], i == 0, most)
  }

  predicate TameCall(a: Action, first: bool, most: nat) {
    match a
    case FindSender(sender, _, amount) => first && sender != "" && 0 < amount <= most
    case FindRecipient(sender, _, amount, _) => first && sender != "" && 0 < amount <= most
    case Debit(user, amount) => first && user != "" && 0 < amount <= most
    case Consume(_, cost) => cost >= 0
    case _ => true
  }

  ghost predicate AllTame(s: State, most: nat) {
    forall t :: 0 <= t < |s.scripts| ==> Tame(s.scripts[t], most)
  }

  lemma ScriptTame(r: Request, most: nat)
    requires Within(r, most)
    ensures Tame(Script(r), most)
  {
    match r
    case DailyGrant(grants) => PlainGrants(grants);
    case Recharge(names, amount) => PlainRecharges(names, amount);
    case _ =>
  }

  lemma MoreTame(b: Books, a: Action, most: nat)
    requires TameCall(a, true, most)
    ensures Tame(More(b, a), most)
  {
  }

  /** Behind the head of a script stand no looks and no debits. */
  predicate Behind(script: seq<Action>, most: nat) {
    forall i :: 0 <= i < |script| ==> TameCall(script[i], false, most)
  }

  lemma TameJoin(a: seq<Action>, b: seq<Action>, most: nat)
    requires Tame(a, most) && Behind(b, most)
    ensures Tame(a + b, most)
  {
  }

  lemma NextTame(b: Books, script: seq<Action>, most: nat)
    requires script != [] && Tame(script, most)
    ensures Tame(More(b, script[0]) + script[1..], most)
  {
    var rest := script[1..];
    MoreTame(b, script[0], most);
    forall i | 0 <= i < |rest|
      ensures TameCall(rest[i], false, most)
    {
      assert TameCall(script[i + 1], false, most);
    }
    TameJoin(More(b, script[0]), rest, most);
  }

  lemma StepTame(s: State, step: Step, most: nat)
    requires AllTame(s, most) && Enabled(s, step)
    requires step.Begin? ==> Within(step.request, most)
    ensures AllTame(Apply(s, step), most)
  {
    var v := Apply(s, step);
    if step.Begin? {
      ScriptTame(step.request, most);
    } else {
      assert Tame(s.scripts[step.t], most);
      NextTame(s.books, s.scripts[step.t], most);
    }
    forall x | 0 <= x < |v.scripts|
      ensures Tame(v.scripts[x], most)
    {
      if x != step.t {
        assert v.scripts[x] == s.scripts[x];
      }
    }
  }

  // ----- The bound.

  lemma {:induction false} DueAtMost(scripts: seq<seq<Action>>, sender: string, most: nat)
    requires forall t :: 0 <= t < |scripts| ==> Tame(scripts[t], most)
    ensures Total(scripts, Taking(sender)) <= most * Total(scripts, Holder(sender))
  {
    if scripts == [] {
    } else {
      var before, last := scripts[..|scripts| - 1], scripts[|scripts| - 1];
      DueAtMost(before, sender, most);
      var l := Total(before, Holder(sender));
      if Holds(last, sender) {
        assert TameCall(last[0], true, most);
        assert most * (l + 1) == most * l + most;
      }
    }
  }

  /** What the relay has charged the sender, and credits below zero have taken. */
  function Drawn(s: State, sender: string): int {
    Total(s.usage, Of(sender)) + Total(s.docked, Of(sender))
  }

  /** What the sender would have left without that. */
  function Funds(s: State, sender: string): int {
    Balance(s.books.users, sender) + Drawn(s, sender)
  }

  function Debited(a: Action, sender: string): int {
    if a.Debit? && a.user == sender then a.amount else 0
  }

  lemma CallFunds(s: State, a: Action, sender: string, most: nat)
    requires TameCall(a, true, most) && sender != "" && Exists(s.books.users, sender)
    ensures var v := Called(s, a);
            && Exists(v.books.users, sender) && Drawn(v, sender) >= Drawn(s, sender)
            && Funds(v, sender) >= Funds(s, sender) - Debited(a, sender)
  {
    FirstKept(s.books.users, Effect(s.books, a).users, sender);
    if a.Credit? {
      CreditFunds(s, a, sender);
    } else if a.Debit? {
      AddUsedBalance(s.books.users, a.user, a.amount, sender);
    } else if a.Consume? {
      ChargeFunds(s, a, sender);
    } else {
      CallElsewhere(s, a, sender);
    }
  }

  lemma CreditFunds(s: State, a: Action, sender: string)
    requires a.Credit?
    ensures var v := Called(s, a);
            Drawn(v, sender) >= Drawn(s, sender) && Funds(v, sender) >= Funds(s, sender)
  {
    var v, bill := Called(s, a), Bill(a.user, "docked", -a.amount);
    assert v.books.users == AddQuota(s.books.users, a.user, a.amount) && v.usage == s.usage;
    AddQuotaBalance(s.books.users, a.user, a.amount, sender);
    if Exists(s.books.users, a.user) && a.amount < 0 {
      assert v.docked == s.docked + [bill];
      TotalPush(s.docked, bill, Of(sender));
    } else {
      assert v.docked == s.docked;
    }
  }

  lemma ChargeFunds(s: State, a: Action, sender: string)
    requires a.Consume? && a.cost >= 0
    ensures var v := Called(s, a);
            Drawn(v, sender) >= Drawn(s, sender) && Funds(v, sender) == Funds(s, sender)
  {
    var v, bill := Called(s, a), Bill(a.user, "usage", a.cost);
    assert v.books.users == AddUsed(s.books.users, a.user, a.cost) && v.docked == s.docked;
    AddUsedBalance(s.books.users, a.user, a.cost, sender);
    if a.user != "" && Exists(s.books.users, a.user) {
      assert v.usage == s.usage + [bill];
      TotalPush(s.usage, bill, Of(sender));
    } else {
      assert v.usage == s.usage;
    }
  }

  lemma CallElsewhere(s: State, a: Action, sender: string)
    requires !(a.Credit? || a.Debit? || a.Consume?) && Exists(s.books.users, sender)
    ensures Called(s, a).usage == s.usage && Called(s, a).docked == s.docked
    ensures Balance(Effect(s.books, a).users, sender) == Balance(s.books.users, sender)
  {
    if a.Enrol? {
      FirstKept(s.books.users, Effect(s.books, a).users, sender);
    } else {
      assert Effect(s.books, a).users == s.books.users;
    }
  }

  /** What the step does to the sender's funds and to what is still due from them. */
  lemma StepMoves(s: State, step: Step, sender: string, most: nat)
    requires AllTame(s, most) && Enabled(s, step) && sender != "" && Exists(s.books.users, sender)
    ensures var v := Apply(s, step);
            var was, now := s.scripts[step.t], v.scripts[step.t];
            && |v.scripts| == |s.scripts| && Exists(v.books.users, sender)
            && Due(v, sender) == Due(s, sender) - Taking(sender)(was) + Taking(sender)(now)
            && Load(v, sender) == Load(s, sender) - Holder(sender)(was) + Holder(sender)(now)
            && Drawn(v, sender) >= Drawn(s, sender)
            && Funds(v, sender) >= Funds(s, sender) - if step.Act? then Debited(was[0], sender) else 0
  {
    var v := Apply(s, step);
    TotalSet(s.scripts, step.t, v.scripts[step.t], Taking(sender));
    TotalSet(s.scripts, step.t, v.scripts[step.t], Holder(sender));
    if step.Act? {
      var a := s.scripts[step.t][0];
      assert Tame(s.scripts[step.t], most) && TameCall(a, true, most);
      CallFunds(s, a, sender, most);
      assert v.books == Called(s, a).books && v.usage == Called(s, a).usage && v.docked == Called(s, a).docked;
    }
  }

  /** The step is a look after which the goroutine will take its amount. */
  predicate Looks(s: State, step: Step, sender: string)
    requires Enabled(s, step)
  {
    step.Act? && s.scripts[step.t][0].FindSender? && Holds(Apply(s, step).scripts[step.t], sender)
  }

  /** The goroutine's own share of what is due, around its step. */
  lemma OwnShare(s: State, step: Step, sender: string, most: nat)
    requires AllTame(s, most) && Enabled(s, step) && Exists(s.books.users, sender)
    ensures var was, now := s.scripts[step.t], Apply(s, step).scripts[step.t];
            if Looks(s, step, sender)
            then !Holds(was, sender) && 0 < Taking(sender)(now) <= Balance(s.books.users, sender)
            else Taking(sender)(now) <= Taking(sender)(was) - if step.Act? then Debited(was[0], sender) else 0
  {
    if step.Act? {
      var was := s.scripts[step.t];
      assert Tame(was, most) && TameCall(was[0], true, most);
      if |was| > 1 {
        assert TameCall(was[1], false, most);
      }
      ActShare(s.books, was, More(s.books, was[0]) + was[1..], sender, most);
    } else {
      BeginHead(step.request, sender);
    }
  }

  lemma ActShare(b: Books, was: seq<Action>, now: seq<Action>, sender: string, most: nat)
    requires was != [] && TameCall(was[0], true, most) && (|was| > 1 ==> TameCall(was[1], false, most))
    requires now == More(b, was[0]) + was[1..] && Exists(b.users, sender)
    ensures if was[0].FindSender? && Holds(now, sender)
            then !Holds(was, sender) && 0 < Taking(sender)(now) <= Balance(b.users, sender)
            else Taking(sender)(now) <= Taking(sender)(was) - Debited(was[0], sender)
  {
  }

  /** A script starts with neither a debit nor a second look. */
  lemma BeginHead(r: Request, sender: string)
    ensures !Holds(Script(r), sender)
  {
    match r
    case DailyGrant(grants) => PlainGrants(grants);
    case Recharge(names, amount) => PlainRecharges(names, amount);
    case _ =>
  }

  function Floor(balance: int, most: nat, k: nat): int {
    if balance < -(k - 1) * most then balance else -(k - 1) * most
  }

  /** Whatever is still due is taken, the funds stay above the floor, and so they would after a look. */
  ghost predicate Above(s: State, sender: string, most: nat, k: nat, floor: int) {
    && AllTame(s, most) && Exists(s.books.users, sender)
    && Funds(s, sender) - Due(s, sender) >= floor && Drawn(s, sender) - (k - 1) * most >= floor
  }

  lemma StepAbove(s: State, step: Step, sender: string, most: nat, k: nat, floor: int)
    requires Above(s, sender, most, k, floor) && Enabled(s, step) && sender != ""
    requires (step.Begin? ==> Within(step.request, most)) && k > 0 && Load(Apply(s, step), sender) <= k
    ensures Above(Apply(s, step), sender, most, k, floor)
  {
    StepTame(s, step, most);
    StepMoves(s, step, sender, most);
    OwnShare(s, step, sender, most);
    if Looks(s, step, sender) {
      DueAtMost(s.scripts, sender, most);
      Product(most, Load(s, sender), k - 1);
    }
  }

  lemma Product(most: nat, l: int, k: int)
    requires l <= k
    ensures most * l <= k * most
  {
    assert k * most - most * l == most * (k - l);
  }

  lemma {:induction false} RunAbove(s: State, steps: seq<Step>, sender: string, most: nat, k: nat,
                                    floor: int)
    requires Above(s, sender, most, k, floor) && sender != ""
    requires Possible(s, steps) && AllWithin(steps, most) && k > 0 && AtMost(s, steps, sender, k)
    ensures Above(Run(s, steps), sender, most, k, floor)
    decreases steps
  {
    if steps == [] {
    } else {
      assert AtMost(Apply(s, steps[0]), steps[1..], sender, k);
      StepAbove(s, steps[0], sender, most, k, floor);
      RunAbove(Apply(s, steps[0]), steps[1..], sender, most, k, floor);
    }
  }

  lemma {:induction false} DueNotNegative(scripts: seq<seq<Action>>, sender: string, most: nat)
    requires forall t :: 0 <= t < |scripts| ==> Tame(scripts[t], most)
    ensures Total(scripts, Taking(sender)) >= 0
  {
    if scripts == [] {
    } else {
      var last := scripts[|scripts| - 1];
      DueNotNegative(scripts[..|scripts| - 1], sender, most);
      if Holds(last, sender) {
        assert TameCall(last[0], true, most);
      }
    }
  }

  /**
    A sender who never has more than `k` transfers past their look at the
    balance, each of at most `most`, is never overdrawn by more than `k - 1` of
    them and what the relay and credits below zero have taken meanwhile.
   */
  lemma OverdraftIsBounded(s: State, steps: seq<Step>, sender: string, most: nat, k: nat)
    requires Quiet(s) && sender != "" && Exists(s.books.users, sender)
    requires Possible(s, steps) && AllWithin(steps, most) && k > 0 && AtMost(s, steps, sender, k)
    ensures var v, before := Run(s, steps), Balance(s.books.users, sender);
            Balance(v.books.users, sender) + (Total(v.usage, Of(sender)) - Total(s.usage, Of(sender)))
            + (Total(v.docked, Of(sender)) - Total(s.docked, Of(sender)))
            >= if before < -(k - 1) * most then before else -(k - 1) * most
  {
    TotalZero(s.scripts, Taking(sender));
    var floor := Drawn(s, sender) + Floor(Balance(s.books.users, sender), most, k);
    RunAbove(s, steps, sender, most, k, floor);
    DueNotNegative(Run(s, steps).scripts, sender, most);
  }

  // ----- The bound is met.

  /** `i` transfers have looked, `j` of them have taken their amount, which is all there was. */
  function Crowd(most: nat, k: nat, i: nat, j: nat): (s: State)
    ensures |s.scripts| == k
  {
    State(Books([User("u", "user", 1, most, j * most), User("v", "user", 1, 0, 0)], [], [], map[], {}, map[], map[]),
          seq(k, x => if x < j then Moved("u", "v", most)[1..]
                      else if x < i then [FindRecipient("u", "v", most, most)] else []),
          [], [], [], [], [], [], [], [])
  }

  lemma {:induction false} LoadAtMost(scripts: seq<seq<Action>>, sender: string)
    ensures Total(scripts, Holder(sender)) <= |scripts|
  {
    if scripts == [] {
    } else {
      LoadAtMost(scripts[..|scripts| - 1], sender);
    }
  }

  lemma Enter(most: nat, k: nat, i: nat)
    requires most > 0 && i < k
    ensures Leads(Crowd(most, k, i, 0), Begin(i, Transfer("u", "v", most)), Act(i), Crowd(most, k, i + 1, 0))
  {
    var v := Apply(Crowd(most, k, i, 0), Begin(i, Transfer("u", "v", most)));
    assert v.scripts[i] == [FindSender("u", "v", most)];
    assert Exists(v.books.users, "u") && FirstUser(v.books.users, "u") == 0;
    assert More(v.books, v.scripts[i][0]) + v.scripts[i][1..] == [FindRecipient("u", "v", most, most)];
    assert Apply(v, Act(i)).scripts == Crowd(most, k, i + 1, 0).scripts;
  }

  lemma Take(most: nat, k: nat, j: nat)
    requires most > 0 && j < k
    ensures Leads(Crowd(most, k, k, j), Act(j), Act(j), Crowd(most, k, k, j + 1))
  {
    var s := Crowd(most, k, k, j);
    var w := Crowd(most, k, k, j + 1);
    assert s.scripts[j] == [FindRecipient("u", "v", most, most)];
    RecipientThere(s.books.users);
    var v := Apply(s, Act(j));
    assert More(s.books, s.scripts[j][0]) + s.scripts[j][1..] == Moved("u", "v", most);
    assert v.scripts[j] == Moved("u", "v", most);
    assert (j + 1) * most == j * most + most;
    var z := Apply(v, Act(j));
    assert More(v.books, v.scripts[j][0]) + v.scripts[j][1..] == Moved("u", "v", most)[1..];
    assert z.scripts == w.scripts;
    assert z.books.users == w.books.users;
  }

  lemma RecipientThere(users: seq<User>)
    requires |users| == 2 && users[0].name == "u" && users[1].name == "v"
    ensures FirstUser(users, "v") == 1 && FirstUser(users, "u") == 0
  {
    assert users[1..][0].name == "v";
  }

  lemma OneMore(s: State, a: Step, rest: seq<Step>, sender: string, most: nat, k: nat)
    requires |s.scripts| <= k && Enabled(s, a) && (a.Begin? ==> Within(a.request, most))
    requires Possible(Apply(s, a), rest) && AtMost(Apply(s, a), rest, sender, k) && AllWithin(rest, most)
    ensures Possible(s, [a] + rest) && AtMost(s, [a] + rest, sender, k) && AllWithin([a] + rest, most)
    ensures Run(s, [a] + rest) == Run(Apply(s, a), rest)
  {
    Prepend(s, a, rest);
    LoadAtMost(s.scripts, sender);
    assert ([a] + rest)[1..] == rest;
  }

  ghost predicate Goes(s: State, steps: seq<Step>, v: State, most: nat, k: nat) {
    Possible(s, steps) && AtMost(s, steps, "u", k) && AllWithin(steps, most) && Run(s, steps) == v
  }

  lemma TwoMore(s: State, a: Step, b: Step, w: State, rest: seq<Step>, v: State, most: nat, k: nat)
    returns (steps: seq<Step>)
    requires |s.scripts| <= k && |w.scripts| <= k && Leads(s, a, b, w) && Goes(w, rest, v, most, k)
    requires !b.Begin? && (a.Begin? ==> Within(a.request, most))
    ensures Goes(s, steps, v, most, k)
  {
    steps := [a] + ([b] + rest);
    OneMore(Apply(s, a), b, rest, "u", most, k);
    OneMore(s, a, [b] + rest, "u", most, k);
  }

  lemma Stays(s: State, most: nat, k: nat)
    requires |s.scripts| <= k
    ensures Goes(s, [], s, most, k)
  {
    LoadAtMost(s.scripts, "u");
  }

  lemma {:induction false} TakeAll(most: nat, k: nat, j: nat) returns (steps: seq<Step>)
    requires most > 0 && j <= k
    ensures Goes(Crowd(most, k, k, j), steps, Crowd(most, k, k, k), most, k)
    decreases k - j
  {
    if j == k {
      steps := [];
      Stays(Crowd(most, k, k, k), most, k);
    } else {
      var now, next, end := Crowd(most, k, k, j), Crowd(most, k, k, j + 1), Crowd(most, k, k, k);
      var rest := TakeAll(most, k, j + 1);
      Take(most, k, j);
      steps := TwoMore(now, Act(j), Act(j), next, rest, end, most, k);
    }
  }

  lemma EnterOne(most: nat, k: nat, i: nat, end: State, rest: seq<Step>) returns (steps: seq<Step>)
    requires most > 0 && i < k && Goes(Crowd(most, k, i + 1, 0), rest, end, most, k)
    ensures Goes(Crowd(most, k, i, 0), steps, end, most, k)
  {
    var begin := Begin(i, Transfer("u", "v", most));
    Enter(most, k, i);
    steps := TwoMore(Crowd(most, k, i, 0), begin, Act(i), Crowd(most, k, i + 1, 0), rest, end, most, k);
  }

  lemma {:induction false} EnterAll(most: nat, k: nat, i: nat) returns (steps: seq<Step>)
    requires most > 0 && i <= k
    ensures Goes(Crowd(most, k, i, 0), steps, Crowd(most, k, k, k), most, k)
    decreases k - i
  {
    if i == k {
      steps := TakeAll(most, k, 0);
    } else {
      var rest := EnterAll(most, k, i + 1);
      steps := EnterOne(most, k, i, Crowd(most, k, k, k), rest);
    }
  }

  /** For every amount and number of transfers some run overdraws a sender that far. */
  lemma OverdraftIsReached(most: nat, k: nat) returns (s: State, steps: seq<Step>)
    requires most > 0
    ensures Quiet(s) && Exists(s.books.users, "u") && Balance(s.books.users, "u") == most
    ensures Possible(s, steps) && AllWithin(steps, most) && AtMost(s, steps, "u", k)
    ensures Balance(Run(s, steps).books.users, "u") == -(k - 1) * most
  {
    s := Crowd(most, k, 0, 0);
    steps := EnterAll(most, k, 0);
    CrowdBalance(most, k, 0, 0);
    CrowdBalance(most, k, k, k);
    assert -(k - 1) * most == most - k * most;
  }

  lemma CrowdBalance(most: nat, k: nat, i: nat, j: nat)
    ensures var users := Crowd(most, k, i, j).books.users;
            Exists(users, "u") && Balance(users, "u") == most - j * most
  {
    assert FirstUser(Crowd(most, k, i, j).books.users, "u") == 0;
  }
}
