/**
  The handlers that change balances, one at a time: each does to the global
  records what its script does when nobody else runs, and keeps every name's
  balance, bills and redeemed codes in agreement.
 */
module Desk {
  import opened Accounts
  import opened Sums
  import opened Ledger
  import Bytes
  import opened Sequences

  // ----- A script run to its end.

  function Rank(a: Action): nat {
    match a
    case CountUsers(_, _, _) => 8
    case Enrol(_, _, _, _) => 7
    case LoadInvite(_, _) => 6
    case Flip(_, _) => 2
    case FindSender(_, _, _) => 6
    case FindRecipient(_, _, _, _) => 5
    case FindRefunded(_, _) => 3
    case LoadOrder(_) => 6
    case CreditOrder(_) => 4
    case CheckDay(_, _, _) => 4
    case _ => 1
  }

  function Work(script: seq<Action>): nat {
    if script == [] then 0 else Rank(script[0]) + Work(script[1..])
  }

  lemma {:induction false} WorkJoin(a: seq<Action>, b: seq<Action>)
    ensures Work(a + b) == Work(a) + Work(b)
  {
    if a == [] {
      assert a + b == b;
    } else {
      assert (a + b)[1..] == a[1..] + b;
      WorkJoin(a[1..], b);
    }
  }

  lemma {:induction false} WorkOfFlat(script: seq<Action>)
    requires forall i :: 0 <= i < |script| ==> Rank(script[i]) == 1
    ensures Work(script) == |script|
  {
    if script == [] {
    } else {
      WorkOfFlat(script[1..]);
    }
  }

  lemma WorkOfTwo(a: Action, b: Action)
    ensures Work([a]) == Rank(a) && Work([a, b]) == Rank(a) + Rank(b)
  {
    assert [a][1..] == [] && [a, b][1..] == [b] && [b][1..] == [];
  }

  /** No call leaves more to do than it did. */
  lemma MoreIsLess(b: Books, a: Action)
    ensures Work(More(b, a)) < Rank(a)
  {
    var more := More(b, a);
    if a.LoadOrder? || a.FindSender? || a.CountUsers? || a.Enrol? {
      if more != [] {
        WorkOfTwo(more[0], more[|more| - 1]);
        assert |more| == 1 ==> more == [more[0]];
        assert |more| == 2 ==> more == [more[0], more[1]];
      }
    } else {
      WorkOfFlat(more);
    }
  }

  lemma Shrinks(b: Books, script: seq<Action>)
    requires script != []
    ensures Work(More(b, script[0]) + script[1..]) < Work(script)
  {
    MoreIsLess(b, script[0]);
    WorkJoin(More(b, script[0]), script[1..]);
  }

  function Alone(b: Books, script: seq<Action>): Books
    decreases Work(script)
  {
    if script == [] then b
    else
      Shrinks(b, script);
      Alone(Effect(b, script[0]), More(b, script[0]) + script[1..])
  }

  lemma AloneStep(b: Books, a: Action, rest: seq<Action>)
    ensures Alone(b, [a] + rest) == Alone(Effect(b, a), More(b, a) + rest)
  {
    assert ([a] + rest)[1..] == rest;
  }

  lemma {:induction false} AloneJoin(b: Books, x: seq<Action>, y: seq<Action>)
    ensures Alone(b, x + y) == Alone(Alone(b, x), y)
    decreases Work(x)
  {
    if x == [] {
      assert x + y == y;
    } else {
      var next := More(b, x[0]) + x[1..];
      Shrinks(b, x);
      assert x == [x[0]] + x[1..];
      Associates([x[0]], x[1..], y);
      Associates(More(b, x[0]), x[1..], y);
      AloneStep(b, x[0], x[1..] + y);
      AloneJoin(Effect(b, x[0]), next, y);
    }
  }

  function WithGrant(b: Books, user: string, kind: string, amount: int): Books {
    b.(users := AddQuota(b.users, user, amount), bills := b.bills + [Bill(user, kind, amount)])
  }

  lemma AloneGranted(b: Books, user: string, kind: string, amount: int, rest: seq<Action>)
    ensures Alone(b, Granted(user, kind, amount) + rest) == Alone(WithGrant(b, user, kind, amount), rest)
  {
    var credit, bill := Credit(user, amount), Enter(Bill(user, kind, amount));
    assert Granted(user, kind, amount) + rest == [credit] + ([bill] + rest);
    AloneStep(b, credit, [bill] + rest);
    assert More(b, credit) + ([bill] + rest) == [bill] + rest;
    AloneStep(Effect(b, credit), bill, rest);
    assert More(Effect(b, credit), bill) + rest == rest;
  }

  lemma AloneOne(b: Books, a: Action)
    ensures Alone(b, [a]) == Alone(Effect(b, a), More(b, a))
  {
    assert [a] == [a] + [] && More(b, a) + [] == More(b, a);
    AloneStep(b, a, []);
  }

  lemma AloneMoved(b: Books, sender: string, recipient: string, amount: int)
    ensures Alone(b, Moved(sender, recipient, amount))
            == Paid(b, sender, recipient, amount)
  {
    var all := Moved(sender, recipient, amount);
    assert all == [all[0]] + ([all[1]] + ([all[2]] + [all[3]]));
    var b1 := Effect(b, all[0]);
    var b2 := Effect(b1, all[1]);
    var b3 := Effect(b2, all[2]);
    AloneFlat(b, all[0], [all[1]] + ([all[2]] + [all[3]]));
    AloneFlat(b1, all[1], [all[2]] + [all[3]]);
    AloneFlat(b2, all[2], [all[3]]);
    AloneOne(b3, all[3]);
    assert b.bills + [all[2].bill] + [all[3].bill] == b.bills + [all[2].bill, all[3].bill];
  }

  lemma AloneFlat(b: Books, a: Action, rest: seq<Action>)
    requires More(b, a) == []
    ensures Alone(b, [a] + rest) == Alone(Effect(b, a), rest)
  {
    AloneStep(b, a, rest);
    assert [] + rest == rest;
  }

  lemma AloneLast(b: Books, a: Action)
    requires More(b, a) == []
    ensures Alone(b, [a]) == Effect(b, a)
  {
    AloneOne(b, a);
  }

  lemma AloneGrantedThen(b: Books, user: string, kind: string, amount: int, mark: Action)
    requires mark.MarkCredited? || mark.MarkDay?
    ensures Alone(b, Granted(user, kind, amount) + [mark]) == Effect(WithGrant(b, user, kind, amount), mark)
  {
    AloneGranted(b, user, kind, amount, [mark]);
    AloneLast(WithGrant(b, user, kind, amount), mark);
  }

  /** A call that reads, and goes on with a credit, its bill and a mark. */
  lemma AloneMarked(b: Books, a: Action, user: string, kind: string, amount: int, mark: Action)
    requires mark.MarkCredited? || mark.MarkDay?
    requires Effect(b, a) == b && More(b, a) == Granted(user, kind, amount) + [mark]
    ensures Alone(b, [a]) == Effect(WithGrant(b, user, kind, amount), mark)
  {
    AloneOne(b, a);
    AloneGrantedThen(b, user, kind, amount, mark);
  }

  lemma AloneCheckDay(b: Books, user: string, day: string, quota: int)
    ensures Alone(b, [CheckDay(user, day, quota)])
            == if user in b.checkins && b.checkins[user] == day then b
               else WithGrant(b, user, "checkin", quota).(checkins := b.checkins[user := day])
  {
    if user in b.checkins && b.checkins[user] == day {
      AloneLast(b, CheckDay(user, day, quota));
    } else {
      AloneNewDay(b, user, day, quota);
    }
  }

  lemma AsksForDay(b: Books, user: string, day: string, quota: int)
    requires !(user in b.checkins && b.checkins[user] == day)
    ensures var a := CheckDay(user, day, quota);
            Effect(b, a) == b && More(b, a) == Granted(user, "checkin", quota) + [MarkDay(user, day)]
  {
  }

  lemma MarksDay(b: Books, user: string, day: string)
    ensures Effect(b, MarkDay(user, day)) == b.(checkins := b.checkins[user := day])
  {
  }

  lemma AloneNewDay(b: Books, user: string, day: string, quota: int)
    requires !(user in b.checkins && b.checkins[user] == day)
    ensures Alone(b, [CheckDay(user, day, quota)])
            == WithGrant(b, user, "checkin", quota).(checkins := b.checkins[user := day])
  {
    AsksForDay(b, user, day, quota);
    AloneMarked(b, CheckDay(user, day, quota), user, "checkin", quota, MarkDay(user, day));
    MarksDay(WithGrant(b, user, "checkin", quota), user, day);
  }

  /** The books once a paid order is credited, billed and flagged, unless its flag is set. */
  function Settled(b: Books, o: Order): Books {
    if o.status != "paid" || o.id in b.credited then b
    else WithGrant(b, o.user, "recharge", o.amount).(credited := b.credited + {o.id})
  }

  function Placed(b: Books, o: Order): Books {
    Settled(b.(orders := b.orders[o.id := o]), o)
  }

  lemma AloneCreditOrder(b: Books, o: Order)
    ensures Alone(b, [CreditOrder(o)]) == Settled(b, o)
  {
    if o.status != "paid" || o.id in b.credited {
      AloneLast(b, CreditOrder(o));
    } else {
      AloneMarked(b, CreditOrder(o), o.user, "recharge", o.amount, MarkCredited(o.id));
    }
  }

  lemma AlonePlaced(b: Books, o: Order)
    ensures Alone(b, [SaveOrder(o), CreditOrder(o)]) == Placed(b, o)
  {
    AloneFlat(b, SaveOrder(o), [CreditOrder(o)]);
    assert [SaveOrder(o)] + [CreditOrder(o)] == [SaveOrder(o), CreditOrder(o)];
    AloneCreditOrder(Effect(b, SaveOrder(o)), o);
  }

  /** The books once the code is used up and its quota credited. */
  function Spent(b: Books, code: string, user: string): Books
    requires Redeemable(b.codes, code)
  {
    var i := FirstCode(b.codes, code);
    b.(codes := b.codes[i := b.codes[i].(status := 0, taker := user)],
       users := AddQuota(b.users, user, b.codes[i].quota))
  }

  lemma AloneFlip(b: Books, code: string, user: string)
    ensures Alone(b, [Flip(code, user)]) == if Redeemable(b.codes, code) then Spent(b, code, user) else b
  {
    AloneOne(b, Flip(code, user));
    if Redeemable(b.codes, code) {
      AloneLast(Effect(b, Flip(code, user)), Credit(user, b.codes[FirstCode(b.codes, code)].quota));
    }
  }

  lemma AloneLoadOrder(b: Books, id: string)
    ensures Alone(b, [LoadOrder(id)])
            == if id in b.orders && b.orders[id].status == "pending" then
                 Placed(b, b.orders[id].(status := "paid"))
               else b
  {
    if id in b.orders && b.orders[id].status == "pending" {
      AloneOne(b, LoadOrder(id));
      AlonePlaced(b, b.orders[id].(status := "paid"));
    } else {
      AloneLast(b, LoadOrder(id));
    }
  }

  /** Running alone is a run of the machine in which only that goroutine acts. */
  lemma {:induction false} AloneIsARun(s: State, t: nat) returns (steps: seq<Step>)
    requires t < |s.scripts|
    ensures forall i :: 0 <= i < |steps| ==> steps[i] == Act(t)
    ensures Possible(s, steps)
    ensures Run(s, steps).books == Alone(s.books, s.scripts[t])
    ensures Run(s, steps).scripts == s.scripts[t := []]
    decreases Work(s.scripts[t])
  {
    if s.scripts[t] == [] {
      steps := [];
    } else {
      Shrinks(s.books, s.scripts[t]);
      var v := Apply(s, Act(t));
      var rest := AloneIsARun(v, t);
      steps := [Act(t)] + rest;
      assert steps[1..] == rest;
      assert v.scripts[t := []] == s.scripts[t := []];
    }
  }

  // ----- A request served to its end, history included.

  /** The goroutine `t` goes on until its script is done. */
  function Finish(s: State, t: nat): State
    requires t < |s.scripts|
    decreases Work(s.scripts[t])
  {
    if s.scripts[t] == [] then s
    else
      Shrinks(s.books, s.scripts[t]);
      Finish(Apply(s, Act(t)), t)
  }

  lemma {:induction false} FinishIs(s: State, t: nat)
    requires t < |s.scripts|
    ensures Finish(s, t).books == Alone(s.books, s.scripts[t])
    ensures Finish(s, t).scripts == s.scripts[t := []]
    decreases Work(s.scripts[t])
  {
    if s.scripts[t] == [] {
      assert s.scripts[t := []] == s.scripts;
    } else {
      Shrinks(s.books, s.scripts[t]);
      FinishIs(Apply(s, Act(t)), t);
      assert Apply(s, Act(t)).scripts[t := []] == s.scripts[t := []];
    }
  }

  lemma {:induction false} FinishKeeps(s: State, t: nat, name: string)
    requires t < |s.scripts|
    ensures Position(Finish(s, t), name) == Position(s, name)
    decreases Work(s.scripts[t])
  {
    if s.scripts[t] == [] {
    } else {
      Shrinks(s.books, s.scripts[t]);
      StepConserves(s, Act(t), name);
      FinishKeeps(Apply(s, Act(t)), t, name);
    }
  }

  /** Nobody is being served. */
  predicate AtRest(s: State) {
    s.scripts == [[]]
  }

  /** The system after it has served one request and nothing else. */
  function After(s: State, r: Request): State
    requires AtRest(s)
  {
    Finish(Apply(s, Begin(0, r)), 0)
  }

  /** What is left, what was used and what got lost is what came in. */
  predicate Agrees(s: State, name: string) {
    Recorded(s, name) == 0
  }

  lemma AgreesIs(s: State, name: string)
    requires AtRest(s)
    ensures Agrees(s, name) <==> Position(s, name) == 0
  {
    TotalZero(s.scripts, ScriptOwes(name));
  }

  /** Serving a request does what its script does, and keeps every name in agreement. */
  lemma AfterKeeps(s: State, r: Request)
    requires AtRest(s)
    ensures After(s, r).books == Alone(s.books, Script(r)) && AtRest(After(s, r))
    ensures forall name :: Agrees(After(s, r), name) <==> Agrees(s, name)
  {
    var begun := Apply(s, Begin(0, r));
    FinishIs(begun, 0);
    forall name
      ensures Agrees(After(s, r), name) <==> Agrees(s, name)
    {
      StepConserves(s, Begin(0, r), name);
      FinishKeeps(begun, 0, name);
      AgreesIs(s, name);
      AgreesIs(After(s, r), name);
    }
  }

  /** One name's balance changes by `amount`, nobody else's does. */
  ghost predicate Gains(before: seq<User>, after: seq<User>, user: string, amount: int) {
    forall name :: Balance(after, name) == Balance(before, name) + if name == user then amount else 0
  }

  /** `amount` goes from one balance to another, nobody else's changes. */
  ghost predicate Shifts(before: seq<User>, after: seq<User>, sender: string, recipient: string, amount: int) {
    forall name :: Balance(after, name) == Balance(before, name) + Share(name, sender, recipient, amount)
  }

  function Share(name: string, sender: string, recipient: string, amount: int): int {
    if name == sender then -amount else if name == recipient then amount else 0
  }

  lemma PayShifts(users: seq<User>, sender: string, recipient: string, amount: int)
    requires sender != "" && sender != recipient && Exists(users, sender) && Exists(users, recipient)
    ensures Shifts(users, AddQuota(AddUsed(users, sender, amount), recipient, amount), sender, recipient, amount)
  {
    var paid := AddUsed(users, sender, amount);
    forall name
      ensures Balance(AddQuota(paid, recipient, amount), name)
              == Balance(users, name) + Share(name, sender, recipient, amount)
    {
      AddUsedBalance(users, sender, amount, name);
      AddQuotaBalance(paid, recipient, amount, name);
      SameFirst(users, paid, recipient);
    }
  }

  /** All the checks a transfer makes. */
  predicate MayTransfer(users: seq<User>, sender: string, recipient: string, amount: int) {
    && recipient != "" && amount > 0 && recipient != sender
    && !IsRoot(users, sender) && Exists(users, sender) && Exists(users, recipient)
    && Balance(users, sender) >= amount
  }

  function Paid(b: Books, sender: string, recipient: string, amount: int): Books {
    b.(users := AddQuota(AddUsed(b.users, sender, amount), recipient, amount),
       bills := b.bills + [Bill(sender, "transfer", -amount), Bill(recipient, "transfer", amount)])
  }

  /** What a credit is worth: nothing when nobody has the name. */
  function Worth(users: seq<User>, user: string, amount: int): int {
    if Exists(users, user) then amount else 0
  }

  lemma CreditGains(users: seq<User>, user: string, amount: int)
    ensures Gains(users, AddQuota(users, user, amount), user, Worth(users, user, amount))
  {
    forall name
      ensures Balance(AddQuota(users, user, amount), name)
              == Balance(users, name) + if name == user then Worth(users, user, amount) else 0
    {
      AddQuotaBalance(users, user, amount, name);
    }
  }

  function To(name: string): Grant -> int {
    (g: Grant) => if g.user == name then g.amount else 0
  }

  function Billings(grants: seq<Grant>, kind: string): seq<Bill> {
    seq(|grants|, i requires 0 <= i < |grants| => Bill(grants[i].user, kind, grants[i].amount))
  }

  /** Every grant is billed and, if somebody has the name, credited; nothing else changes. */
  ghost predicate Awards(b: Books, after: Books, grants: seq<Grant>, kind: string) {
    && after == b.(users := after.users, bills := b.bills + Billings(grants, kind))
    && forall name ::
         && (Exists(after.users, name) <==> Exists(b.users, name))
         && Balance(after.users, name) == Balance(b.users, name) + Worth(b.users, name, Total(grants, To(name)))
  }

  lemma NoAwards(b: Books, kind: string)
    ensures Awards(b, b, [], kind)
  {
    assert b.bills + Billings([], kind) == b.bills;
  }

  lemma OneAwardMore(b: Books, mid: Books, grants: seq<Grant>, kind: string, g: Grant)
    requires Awards(b, mid, grants, kind)
    ensures Awards(b, WithGrant(mid, g.user, kind, g.amount), grants + [g], kind)
  {
    var after := WithGrant(mid, g.user, kind, g.amount);
    assert Billings(grants + [g], kind) == Billings(grants, kind) + [Bill(g.user, kind, g.amount)];
    Associates(b.bills, Billings(grants, kind), [Bill(g.user, kind, g.amount)]);
    forall name
      ensures Exists(after.users, name) <==> Exists(b.users, name)
      ensures Balance(after.users, name)
              == Balance(b.users, name) + Worth(b.users, name, Total(grants + [g], To(name)))
    {
      assert Exists(mid.users, name) <==> Exists(b.users, name);
      SameFirst(mid.users, after.users, name);
      AddQuotaBalance(mid.users, g.user, g.amount, name);
      TotalPush(grants, g, To(name));
    }
  }

  /** The order is stored; if it is paid and not flagged, its user gains the amount, and nobody else anything. */
  ghost predicate Pays(b: Books, after: Books, o: Order) {
    && after == Placed(b, o)
    && Gains(b.users, after.users, o.user,
             if o.status == "paid" && o.id !in b.credited then Worth(b.users, o.user, o.amount) else 0)
  }

  /** The quota each account has left when the system starts. */
  function Openings(users: seq<User>): seq<Bill> {
    if users == [] then []
    else
      var before, u := users[..|users| - 1], users[|users| - 1];
      Openings(before) + if Exists(before, u.name) then [] else [Bill(u.name, "opening", u.quota - u.used)]
  }

  lemma {:induction false} OpeningsAre(users: seq<User>, name: string)
    ensures Total(Openings(users), Of(name)) == Balance(users, name)
  {
    if users == [] {
    } else {
      var before, u := users[..|users| - 1], users[|users| - 1];
      OpeningsAre(before, name);
      assert users == before + [u];
      if Exists(before, u.name) {
        assert Openings(users) == Openings(before);
        SameBalance(before, u, name);
      } else {
        EnrolBalance(before, u, name);
        TotalPush(Openings(before), Bill(u.name, "opening", u.quota - u.used), Of(name));
      }
    }
  }

  /** A second account of a name is never found. */
  lemma SameBalance(users: seq<User>, u: User, name: string)
    requires Exists(users, u.name)
    ensures Balance(users + [u], name) == Balance(users, name)
  {
    if Exists(users, name) {
      FirstKept(users, users + [u], name);
    } else {
      assert forall j :: 0 <= j < |users| ==> (users + [u])[j].name != name;
      assert (users + [u])[|users|] == u;
    }
  }

  // ----- What the handlers read besides the books.

  /** A stored subscription, if it can be read; its expiry, if that can. */
  datatype Subscription = Unreadable | Subscription(plan: string, expire: Expiry)

  datatype Expiry = NoDate | At(time: int)

  datatype Plan = Plan(name: string, quota: int)

  function FindPlan(plans: seq<Plan>, name: string): Lookup<Plan> {
    if plans == [] then Missing else if plans[0].name == name then Found(plans[0]) else FindPlan(plans[1..], name)
  }

  /** The grant a stored subscription is due, if it runs and its plan is there. */
  function Due(user: string, sub: Subscription, plans: seq<Plan>, now: int): seq<Grant> {
    if sub.Unreadable? || sub.plan == "" || sub.expire.NoDate? || now > sub.expire.time then []
    else match FindPlan(plans, sub.plan)
      case Missing => []
      case Found(plan) => [Grant(user, plan.quota)]
  }

  function AllDue(subs: seq<(string, Subscription)>, plans: seq<Plan>, now: int): seq<Grant> {
    if subs == [] then []
    else
      var last := subs[|subs| - 1];
      AllDue(subs[..|subs| - 1], plans, now) + Due(last.0, last.1, plans, now)
  }

  /** The newcomer's quota and, when positive, the inviter's tenth. */
  function Welcomed(b: Books, name: string, inv: Invitation): Books {
    var after := WithGrant(b, name, "invite", inv.quota);
    if inv.quota / 10 > 0 then WithGrant(after, inv.inviter, "invite_bonus", inv.quota / 10) else after
  }

  function WithUse(b: Books, code: string): Books
    requires Open(b, code)
  {
    b.(invites := b.invites[code := UsedOnce(b.invites[code])])
  }

  function Accepted(b: Books, name: string, code: string): Books {
    if Open(b, code) then Welcomed(WithUse(b, code), name, b.invites[code]) else b
  }

  /** A new account, and with an open invitation its credits; a name that is taken changes nothing. */
  function Registered(b: Books, name: string, quota: int, code: string): Books {
    if Exists(b.users, name) then b
    else
      var after := b.(users := b.users + [NewAccount(b.users, name, quota)]);
      if code == "" then after else Accepted(after, name, code)
  }

  lemma AloneInvited(b: Books, name: string, inv: Invitation)
    ensures Alone(b, Invited(name, inv)) == Welcomed(b, name, inv)
  {
    var bonus := if inv.quota / 10 > 0 then Granted(inv.inviter, "invite_bonus", inv.quota / 10) else [];
    AloneGranted(b, name, "invite", inv.quota, bonus);
    AloneGrantedOnly(WithGrant(b, name, "invite", inv.quota), inv.inviter, "invite_bonus", inv.quota / 10);
  }

  lemma AloneLoadInvite(b: Books, name: string, code: string)
    ensures Alone(b, [LoadInvite(name, code)]) == Accepted(b, name, code)
  {
    AloneOne(b, LoadInvite(name, code));
    if Open(b, code) {
      var inv := UsedOnce(b.invites[code]);
      AloneFlat(b, SaveInvite(code, inv), Invited(name, inv));
      AloneInvited(WithUse(b, code), name, inv);
    }
  }

  lemma AloneEnrol(b: Books, u: User, code: string)
    requires u.status == 1 && u.used == 0
    ensures Alone(b, [Enrol(u.name, u.role, u.quota, code)])
            == if Exists(b.users, u.name) then b
               else if code == "" then b.(users := b.users + [u])
               else Accepted(b.(users := b.users + [u]), u.name, code)
  {
    AloneOne(b, Enrol(u.name, u.role, u.quota, code));
    if !Exists(b.users, u.name) && code != "" {
      AloneLoadInvite(b.(users := b.users + [u]), u.name, code);
    }
  }

  /** A registration run alone. */
  lemma AloneRegister(b: Books, name: string, quota: int, code: string)
    ensures Alone(b, Script(Request.Register(name, quota, code))) == Registered(b, name, quota, code)
  {
    AloneOne(b, CountUsers(name, quota, code));
    AloneEnrol(b, NewAccount(b.users, name, quota), code);
  }

  /**
    The newcomer is root, with quota -1, exactly when nobody was there.  An
    invitation is used once more when it is open, and adds its quota and, when
    it is positive, a tenth of it for the inviter, each with its bill.
   */
  lemma RegisteredIs(b: Books, name: string, quota: int, code: string)
    requires !Exists(b.users, name)
    ensures var v, n := Registered(b, name, quota, code), |b.users|;
            var u := User(name, if n == 0 then "root" else "user", 1, if n == 0 then -1 else quota, 0);
            if code == "" || code !in b.invites || b.invites[code].used >= b.invites[code].count then
              v == b.(users := b.users + [u])
            else
              var inv := b.invites[code];
              var bonus := inv.quota / 10;
              && v == b.(users := v.users, bills := v.bills,
                         invites := b.invites[code := inv.(used := inv.used + 1)])
              && v.bills == b.bills + [Bill(name, "invite", inv.quota)]
                            + (if bonus > 0 then [Bill(inv.inviter, "invite_bonus", bonus)] else [])
              && Joins(b.users, v.users, u, inv.quota, inv.inviter, if bonus > 0 then bonus else 0)
  {
    var u := NewAccount(b.users, name, quota);
    if code != "" && Open(b, code) {
      var inv := b.invites[code];
      var more := b.(users := b.users + [u]);
      WelcomedIs(WithUse(more, code), u, inv);
      WelcomedJoins(b.users, u, inv);
    }
  }

  lemma WelcomedIs(b: Books, u: User, inv: Invitation)
    ensures var v := Welcomed(b, u.name, inv);
            var credited := AddQuota(b.users, u.name, inv.quota);
            && v == b.(users := v.users, bills := v.bills)
            && v.bills == b.bills + [Bill(u.name, "invite", inv.quota)]
                          + (if inv.quota / 10 > 0 then [Bill(inv.inviter, "invite_bonus", inv.quota / 10)] else [])
            && v.users == if inv.quota / 10 > 0 then AddQuota(credited, inv.inviter, inv.quota / 10) else credited
  {
  }

  /** One account more, with what it and the inviter are credited; no other balance changes. */
  ghost predicate Joins(before: seq<User>, after: seq<User>, u: User, quota: int, inviter: string, bonus: nat) {
    && |after| == |before| + 1 && after[|before|] == u.(quota := after[|before|].quota)
    && forall name ::
         Balance(after, name) == Balance(before, name) + (if name == u.name then u.quota - u.used + quota else 0)
                                 + if name == inviter && (name == u.name || Exists(before, name)) then bonus else 0
  }

  lemma WelcomedJoins(users: seq<User>, u: User, inv: Invitation)
    requires !Exists(users, u.name)
    ensures var credited := AddQuota(users + [u], u.name, inv.quota);
            var bonus := inv.quota / 10;
            && (bonus > 0 ==> Joins(users, AddQuota(credited, inv.inviter, bonus), u, inv.quota, inv.inviter, bonus))
            && (bonus <= 0 ==> Joins(users, credited, u, inv.quota, inv.inviter, 0))
  {
    var credited, bonus := AddQuota(users + [u], u.name, inv.quota), inv.quota / 10;
    forall name
      ensures Balance(credited, name)
              == Balance(users, name) + if name == u.name then u.quota - u.used + inv.quota else 0
      ensures Balance(AddQuota(credited, inv.inviter, bonus), name)
              == Balance(credited, name)
                 + if name == inv.inviter && (name == u.name || Exists(users, name)) then bonus else 0
    {
      EnrolBalance(users, u, name);
      EnrolExists(users, u, name);
      AddQuotaBalance(users + [u], u.name, inv.quota, name);
      AddQuotaBalance(credited, inv.inviter, bonus, name);
      SameFirst(users + [u], credited, name);
    }
  }

  lemma EnrolExists(users: seq<User>, u: User, name: string)
    ensures Exists(users + [u], name) <==> Exists(users, name) || name == u.name
  {
    var more := users + [u];
    assert more[|users|] == u;
    assert forall j :: 0 <= j < |users| ==> more[j] == users[j];
  }

  /** Orders go to the mock gateway unless another is named; the mock may pay at once. */
  function NewOrder(id: string, user: string, amount: int, gateway: string, mockAuto: bool): Order {
    var via := if gateway == "" then "mock" else gateway;
    Order(id, user, amount, via, if via == "mock" && mockAuto then "paid" else "pending")
  }

  datatype PayReply = BadRequest | NotConfigured | NotFound | Redirected

  // ----- The handlers.

  class Records {
    const accounts: Users
    var codes: seq<Code>
    var bills: seq<Bill>
    var orders: map<string, Order>
    var credited: set<string>
    var checkins: map<string, string>
    var invites: map<string, Invitation>
    ghost var past: State

    function Now(): Books
      reads this, accounts
    {
      Books(accounts.users, codes, bills, orders, credited, checkins, invites)
    }

    /** The history fits the records, and every name's money is accounted for. */
    ghost predicate Valid()
      reads this, accounts
    {
      past.books == Now() && AtRest(past) && forall name :: Agrees(past, name)
    }

    constructor (users: seq<User>, invites: map<string, Invitation>)
      ensures fresh(accounts) && Valid()
      ensures Now() == Books(users, [], [], map[], {}, map[], invites)
    {
      accounts := new Users(users);
      codes, bills, orders, credited, checkins := [], [], map[], {}, map[];
      this.invites := invites;
      past := State(Books(users, [], [], map[], {}, map[], invites), [[]], Openings(users), [], [], [], [], [], [], []);
      new;
      forall name
        ensures Agrees(past, name)
      {
        OpeningsAre(users, name);
      }
    }

    /** Writes the request into the history; the records are to follow. */
    ghost method Note(r: Request)
      requires Valid()
      modifies this`past
      ensures past == After(old(past), r) && past.books == Alone(Now(), Script(r))
      ensures AtRest(past) && forall name :: Agrees(past, name)
    {
      AfterKeeps(past, r);
      past := After(past, r);
    }

    method AppendBilling(bill: Bill)
      modifies this`bills
      ensures Now() == old(Now()).(bills := old(bills) + [bill])
    {
      bills := bills + [bill];
    }

    /** Adds quota, then the bill for it. */
    method CreditAndBill(user: string, kind: string, amount: int)
      modifies this`bills, accounts
      ensures Now() == WithGrant(old(Now()), user, kind, amount)
      ensures bills == old(bills) + [Bill(user, kind, amount)]
      ensures Gains(old(accounts.users), accounts.users, user, Worth(old(accounts.users), user, amount))
    {
      CreditGains(accounts.users, user, amount);
      accounts.AddUserQuota(user, amount);
      AppendBilling(Bill(user, kind, amount));
    }

    /** The relay's charge for one request. */
    method ChargeUser(owner: string, cost: int)
      requires Valid()
      modifies this`past, accounts
      ensures Valid() && past == After(old(past), Relay(owner, cost))
      ensures accounts.users == AddUsed(old(accounts.users), owner, cost)
      ensures Gains(old(accounts.users), accounts.users, owner,
                    if owner == "" then 0 else -Worth(old(accounts.users), owner, cost))
    {
      AloneLast(Now(), Consume(owner, cost));
      Note(Relay(owner, cost));
      forall name
        ensures Balance(AddUsed(accounts.users, owner, cost), name)
                == Balance(accounts.users, name)
                   + if name == owner then (if owner == "" then 0 else -Worth(accounts.users, owner, cost)) else 0
      {
        AddUsedBalance(accounts.users, owner, cost, name);
      }
      accounts.AddUserUsed(owner, cost);
    }

    /** Moves quota from one user to another; a refusal changes nothing. */
    method Transfer(sender: string, recipient: string, amount: int) returns (ok: bool)
      requires Valid()
      modifies this, accounts
      ensures Valid() && past == After(old(past), Request.Transfer(sender, recipient, amount))
      ensures ok == MayTransfer(old(accounts.users), sender, recipient, amount)
      ensures var users := old(accounts.users);
              var i, j := FirstUser(users, sender), FirstUser(users, recipient);
              ok <==> && recipient != "" && amount > 0 && recipient != sender && i < |users| && j < |users|
                      && users[i].role != "root" && users[i].quota - users[i].used >= amount
      ensures Now() == if ok then Paid(old(Now()), sender, recipient, amount) else old(Now())
      ensures ok ==> bills == old(bills) + [Bill(sender, "transfer", -amount), Bill(recipient, "transfer", amount)]
      ensures ok && sender != "" ==> Shifts(old(accounts.users), accounts.users, sender, recipient, amount)
    {
      Note(Request.Transfer(sender, recipient, amount));
      AloneTransfer(Now(), sender, recipient, amount);
      ok := CheckTransfer(sender, recipient, amount);
      if ok {
        Pay(sender, recipient, amount);
      }
    }

    method CheckTransfer(sender: string, recipient: string, amount: int) returns (ok: bool)
      ensures ok == MayTransfer(accounts.users, sender, recipient, amount)
    {
      if recipient == "" || amount <= 0 {
        return false;
      }
      var s := accounts.GetUserByUsername(sender);
      if s.Found? && s.value.role == "root" {
        return false;
      }
      if recipient == sender {
        return false;
      }
      if s.Missing? {
        return false;
      }
      var remaining := s.value.quota - s.value.used;
      var found := accounts.GetUserByUsername(recipient);
      if found.Missing? {
        return false;
      }
      if remaining < amount {
        return false;
      }
      return true;
    }

    /** Debit, credit and the two bills. */
    method Pay(sender: string, recipient: string, amount: int)
      requires Exists(accounts.users, sender) && Exists(accounts.users, recipient) && recipient != sender
      modifies this`bills, accounts
      ensures Now() == Paid(old(Now()), sender, recipient, amount)
      ensures sender != "" ==> Shifts(old(accounts.users), accounts.users, sender, recipient, amount)
    {
      ghost var users := accounts.users;
      accounts.AddUserUsed(sender, amount);
      accounts.AddUserQuota(recipient, amount);
      AppendBilling(Bill(sender, "transfer", -amount));
      AppendBilling(Bill(recipient, "transfer", amount));
      assert bills == old(bills) + [Bill(sender, "transfer", -amount), Bill(recipient, "transfer", amount)];
      if sender != "" {
        PayShifts(users, sender, recipient, amount);
      }
    }

    method Refund(user: string, amount: int) returns (ok: bool)
      requires Valid()
      modifies this, accounts
      ensures Valid() && past == After(old(past), Request.Refund(user, amount))
      ensures ok <==> user != "" && amount > 0 && Exists(old(accounts.users), user)
      ensures Now() == if ok then WithGrant(old(Now()), user, "refund", amount) else old(Now())
      ensures Gains(old(accounts.users), accounts.users, user, if ok then amount else 0)
    {
      ghost var r := Request.Refund(user, amount);
      Note(r);
      if user == "" || amount <= 0 {
        return false;
      }
      AloneOne(Now(), FindRefunded(user, amount));
      var u := accounts.GetUserByUsername(user);
      if u.Missing? {
        return false;
      }
      AloneGrantedOnly(Now(), user, "refund", amount);
      CreditAndBill(user, "refund", amount);
      return true;
    }

    /** Does not ask whether the user exists; bills always, and reports the quota afterwards. */
    method Adjust(user: string, amount: int) returns (balance: int)
      requires Valid()
      modifies this, accounts
      ensures Valid() && past == After(old(past), Request.Adjust(user, amount))
      ensures Now() == if user == "" then old(Now()) else WithGrant(old(Now()), user, "adjust", amount)
      ensures Gains(old(accounts.users), accounts.users, user,
                    if user == "" then 0 else Worth(old(accounts.users), user, amount))
      ensures balance == if user != "" && Exists(old(accounts.users), user)
                         then GetUser(old(accounts.users), user).value.quota + amount else 0
    {
      ghost var r := Request.Adjust(user, amount);
      Note(r);
      if user == "" {
        return 0;
      }
      AloneGrantedOnly(Now(), user, "adjust", amount);
      SameFirst(accounts.users, AddQuota(accounts.users, user, amount), user);
      CreditGains(accounts.users, user, amount);
      accounts.AddUserQuota(user, amount);
      balance := 0;
      var u := accounts.GetUserByUsername(user);
      if u.Found? {
        balance := u.value.quota;
      }
      AppendBilling(Bill(user, "adjust", amount));
    }

    /** Credits and bills every name that is not blank, in order. */
    method Recharge(names: seq<string>, amount: int) returns (count: nat)
      requires Valid()
      modifies this, accounts
      ensures Valid() && past == After(old(past), Request.Recharge(names, amount))
      ensures Awards(old(Now()), Now(), Gifts(Bytes.NonBlank(names), amount), "recharge")
      ensures count == |Bytes.NonBlank(names)|
      ensures bills == old(bills) + seq(count, i requires 0 <= i < count =>
                                               Bill(Bytes.NonBlank(names)[i], "recharge", amount))
      ensures forall name :: Exists(old(accounts.users), name) ==>
                Balance(accounts.users, name)
                == Balance(old(accounts.users), name) + amount * multiset(Bytes.NonBlank(names))[name]
    {
      Note(Request.Recharge(names, amount));
      RechargesAward(Now(), names, amount);
      ghost var b := Now();
      count := RechargeAll(names, amount);
      Recharged(b, Now(), Bytes.NonBlank(names), amount);
    }

    method RechargeAll(names: seq<string>, amount: int) returns (count: nat)
      modifies this`bills, accounts
      ensures Now() == Alone(old(Now()), Recharges(names, amount))
      ensures count == |Bytes.NonBlank(names)|
    {
      count := 0;
      ghost var b := Now();
      for i := 0 to |names|
        invariant Now() == Alone(b, Recharges(names[..i], amount))
        invariant count == |Bytes.NonBlank(names[..i])|
      {
        RechargesStep(b, names, i, amount);
        Bytes.NonBlankStep(names, i);
        var name := Bytes.TrimSpace(names[i]);
        if name != "" {
          CreditAndBill(name, "recharge", amount);
          count := count + 1;
        }
      }
      assert names[..|names|] == names;
    }

    /** Every subscription that runs gets its plan's quota once more. */
    method SubDailyGrant(subs: seq<(string, Subscription)>, plans: seq<Plan>, now: int) returns (granted: nat)
      requires Valid()
      modifies this, accounts
      ensures Valid() && past == After(old(past), DailyGrant(AllDue(subs, plans, now)))
      ensures Awards(old(Now()), Now(), AllDue(subs, plans, now), "subscribe")
      ensures granted == |AllDue(subs, plans, now)|
      ensures bills == old(bills) + seq(granted, i requires 0 <= i < granted =>
                                                 var g := AllDue(subs, plans, now)[i];
                                                 Bill(g.user, "subscribe", g.amount))
    {
      Note(DailyGrant(AllDue(subs, plans, now)));
      GrantsAward(Now(), AllDue(subs, plans, now));
      ghost var b := Now();
      granted := GrantAll(subs, plans, now);
      Subscribed(b, Now(), AllDue(subs, plans, now));
    }

    method GrantAll(subs: seq<(string, Subscription)>, plans: seq<Plan>, now: int) returns (granted: nat)
      modifies this`bills, accounts
      ensures granted == |AllDue(subs, plans, now)|
      ensures Now() == Alone(old(Now()), Grants(AllDue(subs, plans, now)))
    {
      granted := 0;
      ghost var b := Now();
      for i := 0 to |subs|
        invariant granted == |AllDue(subs[..i], plans, now)|
        invariant Now() == Alone(b, Grants(AllDue(subs[..i], plans, now)))
      {
        assert subs[..i + 1][..i] == subs[..i];
        GrantsJoin(b, AllDue(subs[..i], plans, now), Due(subs[i].0, subs[i].1, plans, now));
        var n := GrantIfDue(subs[i].0, subs[i].1, plans, now);
        granted := granted + n;
      }
      assert subs[..|subs|] == subs;
    }

    method GrantIfDue(user: string, sub: Subscription, plans: seq<Plan>, now: int) returns (n: nat)
      modifies this`bills, accounts
      ensures n == |Due(user, sub, plans, now)|
      ensures Now() == Alone(old(Now()), Grants(Due(user, sub, plans, now)))
    {
      if sub.Unreadable? || sub.plan == "" {
        return 0;
      }
      if sub.expire.NoDate? || now > sub.expire.time {
        return 0;
      }
      var plan := FindPlan(plans, sub.plan);
      if plan.Missing? {
        return 0;
      }
      OneGrant(Now(), Grant(user, plan.value.quota));
      CreditAndBill(user, "subscribe", plan.value.quota);
      return 1;
    }

    /** Once a day: the second call of a day changes nothing. */
    method Checkin(user: string, day: string, quota: int) returns (ok: bool)
      requires Valid()
      modifies this, accounts
      ensures Valid() && past == After(old(past), Request.Checkin(user, day, quota))
      ensures ok <==> !(user in old(checkins) && old(checkins)[user] == day)
      ensures Now() == if ok then WithGrant(old(Now()), user, "checkin", quota).(checkins := old(checkins)[user := day])
                       else old(Now())
      ensures Gains(old(accounts.users), accounts.users, user,
                    if ok then Worth(old(accounts.users), user, quota) else 0)
    {
      ghost var r := Request.Checkin(user, day, quota);
      Note(r);
      AloneCheckDay(Now(), user, day, quota);
      if user in checkins && checkins[user] == day {
        return false;
      }
      CreditAndBill(user, "checkin", quota);
      checkins := checkins[user := day];
      return true;
    }

    /** Uses the invitation once more, if it can be. */
    method RedeemInvite(code: string) returns (inv: Lookup<Invitation>)
      modifies this`invites
      ensures inv.Found? == Open(old(Now()), code)
      ensures inv.Found? <==> code in old(invites) && old(invites)[code].used < old(invites)[code].count
      ensures Now() == if inv.Found? then WithUse(old(Now()), code) else old(Now())
      ensures inv.Found? ==> && inv.value == old(invites)[code].(used := old(invites)[code].used + 1)
                             && invites == old(invites)[code := inv.value]
    {
      if code !in invites {
        return Missing;
      }
      var found := invites[code];
      if found.used >= found.count {
        return Missing;
      }
      found := found.(used := found.used + 1);
      invites := invites[code := found];
      return Found(found);
    }

    /**
      The first account is root's and unmetered; an invitation is used only
      for an account that could be opened.  The reply says whether the request
      went through: a bad invitation fails it although the account is there.
     */
    method Register(name: string, defaultQuota: int, code: string) returns (ok: bool)
      requires Valid()
      modifies this, accounts
      ensures Valid() && past == After(old(past), Request.Register(name, defaultQuota, code))
      ensures ok <==> && !Exists(old(accounts.users), name)
                      && (code == "" || (code in old(invites) && old(invites)[code].used < old(invites)[code].count))
      ensures Now() == Registered(old(Now()), name, defaultQuota, code)
    {
      Note(Request.Register(name, defaultQuota, code));
      AloneRegister(Now(), name, defaultQuota, code);
      var role, quota := "user", defaultQuota;
      if |accounts.users| == 0 {
        role, quota := "root", -1;
      }
      ok := accounts.CreateUser(name, role, quota);
      if !ok {
        return;
      }
      if code != "" {
        ok := Welcome(name, code);
      }
    }

    method Welcome(name: string, code: string) returns (ok: bool)
      modifies this`invites, this`bills, accounts
      ensures ok <==> Open(old(Now()), code)
      ensures Now() == Accepted(old(Now()), name, code)
    {
      var inv := RedeemInvite(code);
      if inv.Missing? {
        return false;
      }
      CreditAndBill(name, "invite", inv.value.quota);
      var bonus := inv.value.quota / 10;
      if bonus > 0 {
        CreditAndBill(inv.value.inviter, "invite_bonus", bonus);
      }
      return true;
    }

    method CreateRedemptions(quota: int, names: seq<string>) returns (ok: bool)
      requires Valid()
      modifies this
      ensures Valid() && past == After(old(past), MakeCodes(quota, names))
      ensures ok <==> 0 < |names| <= 100 && quota > 0
      ensures Now() == if ok then old(Now()).(codes := old(codes) + NewCodes(quota, names)) else old(Now())
      ensures ok ==> && |codes| == |old(codes)| + |names| && codes[..|old(codes)|] == old(codes)
                     && forall i :: 0 <= i < |names| ==> codes[|old(codes)| + i] == Code(names[i], quota, 1, "")
    {
      ghost var r := MakeCodes(quota, names);
      Note(r);
      if |names| <= 0 || |names| > 100 {
        return false;
      }
      if quota <= 0 {
        return false;
      }
      AloneOne(Now(), Mint(quota, names));
      for i := 0 to |names|
        invariant Now() == old(Now()).(codes := old(codes) + NewCodes(quota, names)[..i])
        invariant past == After(old(past), r)
      {
        codes := codes + [Code(names[i], quota, 1, "")];
      }
      return true;
    }

    /** The first code of that name is used up and credited, if it was unused. */
    method Redeem(code: string, user: string) returns (ok: bool)
      requires Valid()
      modifies this, accounts
      ensures Valid() && past == After(old(past), Request.Redeem(code, user))
      ensures ok <==> code != "" && Redeemable(old(codes), code)
      ensures var i := FirstCode(old(codes), code);
              && (ok <==> code != "" && i < |old(codes)| && old(codes)[i].status == 1)
              && codes == if ok then old(codes)[i := Code(code, old(codes)[i].quota, 0, user)] else old(codes)
      ensures Now() == if ok then Spent(old(Now()), code, user) else old(Now())
      ensures ok ==> Gains(old(accounts.users), accounts.users, user,
                           Worth(old(accounts.users), user, old(codes)[FirstCode(old(codes), code)].quota))
    {
      Note(Request.Redeem(code, user));
      if code == "" {
        return false;
      }
      AloneFlip(Now(), code, user);
      ok := UseCode(code, user);
    }

    method UseCode(code: string, user: string) returns (ok: bool)
      modifies this`codes, accounts
      ensures ok <==> Redeemable(old(codes), code)
      ensures Now() == if ok then Spent(old(Now()), code, user) else old(Now())
      ensures ok ==> Gains(old(accounts.users), accounts.users, user,
                           Worth(old(accounts.users), user, old(codes)[FirstCode(old(codes), code)].quota))
    {
      for i := 0 to |codes|
        invariant Now() == old(Now())
        invariant forall j :: 0 <= j < i ==> codes[j].code != code
      {
        if codes[i].code == code {
          if codes[i].status != 1 {
            return false;
          }
          CreditGains(accounts.users, user, codes[i].quota);
          codes := codes[i := codes[i].(status := 0, taker := user)];
          accounts.AddUserQuota(user, codes[i].quota);
          return true;
        }
      }
      return false;
    }

    /** A paid order is credited, billed and flagged, unless its flag is set. */
    method CreditPaidOrder(o: Order) returns (ok: bool)
      modifies this`bills, this`credited, accounts
      ensures ok <==> o.status == "paid"
      ensures Now() == Settled(old(Now()), o)
      ensures bills == old(bills) + if ok && o.id !in old(credited) then [Bill(o.user, "recharge", o.amount)] else []
      ensures credited == if ok then old(credited) + {o.id} else old(credited)
      ensures Gains(old(accounts.users), accounts.users, o.user,
                    if ok && o.id !in old(credited) then Worth(old(accounts.users), o.user, o.amount) else 0)
    {
      if o.status != "paid" {
        return false;
      }
      if o.id in credited {
        return true;
      }
      CreditAndBill(o.user, "recharge", o.amount);
      credited := credited + {o.id};
      return true;
    }

    method SavePayOrder(o: Order)
      modifies this`orders
      ensures Now() == old(Now()).(orders := old(orders)[o.id := o])
    {
      orders := orders[o.id := o];
    }

    method SaveAndCredit(o: Order)
      modifies this`orders, this`bills, this`credited, accounts
      ensures Pays(old(Now()), Now(), o)
      ensures orders == old(orders)[o.id := o]
      ensures bills == old(bills)
                       + if o.status == "paid" && o.id !in old(credited) then [Bill(o.user, "recharge", o.amount)]
                         else []
      ensures credited == if o.status == "paid" then old(credited) + {o.id} else old(credited)
    {
      SavePayOrder(o);
      var _ := CreditPaidOrder(o);
    }

    method CreateOrder(id: string, user: string, amount: int, gateway: string, mockAuto: bool) returns (ok: bool)
      requires Valid()
      modifies this, accounts
      ensures Valid() && past == After(old(past), PlaceOrder(NewOrder(id, user, amount, gateway, mockAuto)))
      ensures ok <==> amount > 0
      ensures if ok then Pays(old(Now()), Now(), NewOrder(id, user, amount, gateway, mockAuto)) else Now() == old(Now())
      ensures ok ==> var via := if gateway == "" then "mock" else gateway;
                     var paid := via == "mock" && mockAuto;
                     && orders == old(orders)[id := Order(id, user, amount, via, if paid then "paid" else "pending")]
                     && credited == (if paid then old(credited) + {id} else old(credited))
                     && bills == old(bills)
                                 + if paid && id !in old(credited) then [Bill(user, "recharge", amount)] else []
    {
      var o := BuildOrder(id, user, amount, gateway, mockAuto);
      Note(PlaceOrder(o));
      AlonePlaceOrder(Now(), o);
      if amount <= 0 {
        return false;
      }
      SaveAndCredit(o);
      return true;
    }

    method BuildOrder(id: string, user: string, amount: int, gateway: string, mockAuto: bool) returns (o: Order)
      ensures o == NewOrder(id, user, amount, gateway, mockAuto)
    {
      var via := gateway;
      if via == "" {
        via := "mock";
      }
      o := Order(id, user, amount, via, "pending");
      if via == "mock" && mockAuto {
        o := o.(status := "paid");
      }
    }

    /** Only the mock gateway is there; a pending order becomes paid and is credited unless flagged. */
    method PayCallback(gateway: string, id: string) returns (reply: PayReply)
      requires Valid()
      modifies this, accounts
      ensures reply == if gateway == "" || id == "" then BadRequest
                       else if gateway != "mock" then NotConfigured
                       else if id !in old(orders) then NotFound else Redirected
      ensures Valid()
      ensures past == After(old(past), Callback(if gateway == "mock" then id else ""))
      ensures if reply == Redirected && old(orders)[id].status == "pending"
              then Pays(old(Now()), Now(), old(orders)[id].(status := "paid"))
              else Now() == old(Now())
      ensures reply == Redirected && old(orders)[id].status == "pending"
              ==> var o := old(orders)[id].(status := "paid");
                  && orders == old(orders)[o.id := o] && credited == old(credited) + {o.id}
                  && bills == old(bills)
                              + if o.id !in old(credited) then [Bill(o.user, "recharge", o.amount)] else []
    {
      ghost var r := Callback(if gateway == "mock" then id else "");
      Note(r);
      if gateway == "" || id == "" {
        return BadRequest;
      }
      if gateway != "mock" {
        return NotConfigured;
      }
      AloneLoadOrder(Now(), id);
      if id !in orders {
        return NotFound;
      }
      if orders[id].status == "pending" {
        SaveAndCredit(orders[id].(status := "paid"));
      }
      return Redirected;
    }
  }

  // ----- What the loops build.

  function Gifts(names: seq<string>, amount: int): seq<Grant> {
    seq(|names|, i requires 0 <= i < |names| => Grant(names[i], amount))
  }

  /** Every mention of the name is worth the amount. */
  lemma {:induction false} GiftsTotal(names: seq<string>, amount: int, name: string)
    ensures Total(Gifts(names, amount), To(name)) == amount * multiset(names)[name]
  {
    if names == [] {
    } else {
      var before, last := names[..|names| - 1], names[|names| - 1];
      GiftsTotal(before, amount, name);
      GiftsStep(before, last, amount);
      TotalPush(Gifts(before, amount), Grant(last, amount), To(name));
      assert names == before + [last];
      OneMore(amount, multiset(before)[name]);
    }
  }

  /** Every name is billed the amount and credited it once for every mention. */
  lemma Recharged(b: Books, after: Books, names: seq<string>, amount: int)
    requires Awards(b, after, Gifts(names, amount), "recharge")
    ensures after.bills == b.bills + seq(|names|, i requires 0 <= i < |names| => Bill(names[i], "recharge", amount))
    ensures forall name :: Exists(b.users, name) ==>
              Balance(after.users, name) == Balance(b.users, name) + amount * multiset(names)[name]
  {
    assert Billings(Gifts(names, amount), "recharge")
           == seq(|names|, i requires 0 <= i < |names| => Bill(names[i], "recharge", amount));
    forall name | Exists(b.users, name)
      ensures Balance(after.users, name) == Balance(b.users, name) + amount * multiset(names)[name]
    {
      GiftsTotal(names, amount, name);
    }
  }

  lemma Subscribed(b: Books, after: Books, grants: seq<Grant>)
    requires Awards(b, after, grants, "subscribe")
    ensures after.bills == b.bills + seq(|grants|, i requires 0 <= i < |grants| =>
                                                     var g := grants[i];
                                                     Bill(g.user, "subscribe", g.amount))
  {
    assert Billings(grants, "subscribe")
           == seq(|grants|, i requires 0 <= i < |grants| => var g := grants[i]; Bill(g.user, "subscribe", g.amount));
  }

  lemma OneMore(amount: int, n: nat)
    ensures amount * (n + 1) == amount * n + amount
  {
  }

  lemma GiftsStep(names: seq<string>, name: string, amount: int)
    ensures Gifts(names + [name], amount) == Gifts(names, amount) + [Grant(name, amount)]
  {
  }

  lemma RechargesStep(b: Books, names: seq<string>, i: nat, amount: int)
    requires i < |names|
    ensures var name := Bytes.TrimSpace(names[i]);
            var before := Alone(b, Recharges(names[..i], amount));
            Alone(b, Recharges(names[..i + 1], amount))
            == if name == "" then before else WithGrant(before, name, "recharge", amount)
  {
    assert names[..i + 1][..i] == names[..i];
    var name := Bytes.TrimSpace(names[i]);
    if name != "" {
      AloneJoin(b, Recharges(names[..i], amount), Granted(name, "recharge", amount));
      AloneGrantedOnly(Alone(b, Recharges(names[..i], amount)), name, "recharge", amount);
    } else {
      assert Recharges(names[..i + 1], amount) == Recharges(names[..i], amount);
    }
  }

  lemma {:induction false} RechargesAward(b: Books, names: seq<string>, amount: int)
    ensures Awards(b, Alone(b, Recharges(names, amount)), Gifts(Bytes.NonBlank(names), amount), "recharge")
  {
    if names == [] {
      NoAwards(b, "recharge");
    } else {
      var n := |names| - 1;
      var name := Bytes.TrimSpace(names[n]);
      assert names[..n + 1] == names;
      RechargesAward(b, names[..n], amount);
      RechargesStep(b, names, n, amount);
      Bytes.NonBlankStep(names, n);
      if name != "" {
        GiftsStep(Bytes.NonBlank(names[..n]), name, amount);
        OneAwardMore(b, Alone(b, Recharges(names[..n], amount)), Gifts(Bytes.NonBlank(names[..n]), amount), "recharge",
                     Grant(name, amount));
      } else {
        assert Alone(b, Recharges(names, amount)) == Alone(b, Recharges(names[..n], amount));
        assert Bytes.NonBlank(names) == Bytes.NonBlank(names[..n]);
      }
    }
  }

  lemma {:induction false} GrantsAward(b: Books, grants: seq<Grant>)
    ensures Awards(b, Alone(b, Grants(grants)), grants, "subscribe")
  {
    if grants == [] {
      NoAwards(b, "subscribe");
    } else {
      var before, last := grants[..|grants| - 1], grants[|grants| - 1];
      GrantsAward(b, before);
      AloneJoin(b, Grants(before), Granted(last.user, "subscribe", last.amount));
      AloneGrantedOnly(Alone(b, Grants(before)), last.user, "subscribe", last.amount);
      OneAwardMore(b, Alone(b, Grants(before)), before, "subscribe", last);
      assert grants == before + [last];
    }
  }

  /** A transfer run alone pays exactly when it may. */
  lemma AloneTransfer(b: Books, sender: string, recipient: string, amount: int)
    ensures Alone(b, Script(Request.Transfer(sender, recipient, amount)))
            == if MayTransfer(b.users, sender, recipient, amount) then Paid(b, sender, recipient, amount) else b
  {
    if recipient == "" || amount <= 0 {
    } else if IsRoot(b.users, sender) || recipient == sender || !Exists(b.users, sender) {
      AloneLast(b, FindSender(sender, recipient, amount));
    } else {
      var u := b.users[FirstUser(b.users, sender)];
      AloneOne(b, FindSender(sender, recipient, amount));
      AloneRecipient(b, sender, recipient, amount, u.quota - u.used);
    }
  }

  lemma AloneRecipient(b: Books, sender: string, recipient: string, amount: int, remaining: int)
    ensures Alone(b, [FindRecipient(sender, recipient, amount, remaining)])
            == if Exists(b.users, recipient) && remaining >= amount then Paid(b, sender, recipient, amount) else b
  {
    if Exists(b.users, recipient) && remaining >= amount {
      AloneOne(b, FindRecipient(sender, recipient, amount, remaining));
      AloneMoved(b, sender, recipient, amount);
    } else {
      AloneLast(b, FindRecipient(sender, recipient, amount, remaining));
    }
  }

  lemma AlonePlaceOrder(b: Books, o: Order)
    ensures Alone(b, Script(PlaceOrder(o))) == if o.amount <= 0 then b else Placed(b, o)
  {
    AlonePlaced(b, o);
    assert Script(PlaceOrder(o)) == if o.amount <= 0 then [] else [SaveOrder(o), CreditOrder(o)];
  }

  lemma AloneGrantedOnly(b: Books, user: string, kind: string, amount: int)
    ensures Alone(b, Granted(user, kind, amount)) == WithGrant(b, user, kind, amount)
  {
    AloneGranted(b, user, kind, amount, []);
    assert Granted(user, kind, amount) + [] == Granted(user, kind, amount);
  }

  lemma OneGrant(b: Books, g: Grant)
    ensures Alone(b, Grants([g])) == WithGrant(b, g.user, "subscribe", g.amount)
  {
    assert [g][..0] == [];
    EmptyFirst(Granted(g.user, "subscribe", g.amount));
    AloneGrantedOnly(b, g.user, "subscribe", g.amount);
  }

  lemma {:induction false} GrantsAppend(a: seq<Grant>, c: seq<Grant>)
    ensures Grants(a + c) == Grants(a) + Grants(c)
  {
    if c == [] {
      assert a + c == a;
    } else {
      var before, last := c[..|c| - 1], c[|c| - 1];
      assert (a + c)[..|a + c| - 1] == a + before;
      GrantsAppend(a, before);
      Associates(Grants(a), Grants(before), Granted(last.user, "subscribe", last.amount));
    }
  }

  lemma GrantsJoin(b: Books, a: seq<Grant>, c: seq<Grant>)
    ensures Alone(b, Grants(a + c)) == Alone(Alone(b, Grants(a)), Grants(c))
  {
    GrantsAppend(a, c);
    AloneJoin(b, Grants(a), Grants(c));
  }

  /** Subscriptions are granted to in their order. */
  lemma {:induction false} AllDueAppend(a: seq<(string, Subscription)>, b: seq<(string, Subscription)>,
                                        plans: seq<Plan>, now: int)
    ensures AllDue(a + b, plans, now) == AllDue(a, plans, now) + AllDue(b, plans, now)
  {
    if b == [] {
      assert a + b == a;
    } else {
      var before, last := b[..|b| - 1], b[|b| - 1];
      assert (a + b)[..|a + b| - 1] == a + before;
      AllDueAppend(a, before, plans, now);
      Associates(AllDue(a, plans, now), AllDue(before, plans, now), Due(last.0, last.1, plans, now));
    }
  }

  /**
    One subscription is granted to, once and with the quota of the first plan
    of its name, exactly when it can be read, names a plan that is there, and
    has a date that has not passed.
   */
  lemma {:induction false} OneDue(user: string, sub: Subscription, plans: seq<Plan>, now: int, quota: int)
    ensures |AllDue([(user, sub)], plans, now)| <= 1
    ensures AllDue([(user, sub)], plans, now) == [Grant(user, quota)]
            <==> && sub.Subscription? && sub.plan != "" && sub.expire.At? && now <= sub.expire.time
                 && exists i :: && 0 <= i < |plans| && plans[i] == Plan(sub.plan, quota)
                                && forall j :: 0 <= j < i ==> plans[j].name != sub.plan
  {
    var one := [(user, sub)];
    assert one[..0] == [];
    EmptyFirst(Due(user, sub, plans, now));
    if sub.Subscription? {
      var _ := FirstPlan(plans, sub.plan);
    }
  }

  /** Where the first plan of that name is. */
  lemma {:induction false} FirstPlan(plans: seq<Plan>, name: string) returns (i: nat)
    ensures i <= |plans| && forall j :: 0 <= j < i ==> plans[j].name != name
    ensures if i == |plans| then FindPlan(plans, name).Missing?
            else plans[i].name == name && FindPlan(plans, name) == Found(plans[i])
  {
    i := 0;
    if plans != [] && plans[0].name != name {
      i := FirstPlan(plans[1..], name);
      assert forall j :: 0 < j < i + 1 ==> plans[j] == plans[1..][j - 1];
      i := i + 1;
    }
  }
}
