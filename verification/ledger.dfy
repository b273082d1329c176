/**
  Every way a balance can change, as the handlers do it: short scripts of locked
  calls, which any number of goroutines interleave.  The books are the users'
  quotas, the billing log, the redemption codes, orders, check-ins and invitations.
 */
module Ledger {
  import opened Accounts
  import opened Sums
  import opened Sequences
  import Bytes

  datatype Code = Code(code: string, quota: int, status: int, taker: string)

  datatype Bill = Bill(user: string, kind: string, amount: int)

  datatype Order = Order(id: string, user: string, amount: int, gateway: string, status: string)

  datatype Books = Books(users: seq<User>, codes: seq<Code>, bills: seq<Bill>,
                         orders: map<string, Order>, credited: set<string>, checkins: map<string, string>,
                         invites: map<string, Invitation>)

  /** What an invitation grants, who sent it, how often it may be used and was. */
  datatype Invitation = Invitation(quota: int, inviter: string, count: int, used: int)

  datatype DayGrant = DayGrant(user: string, day: string)

  datatype Grant = Grant(user: string, amount: int)

  /** One locked call, or one read on which a handler branches. */
  datatype Action =
    | Credit(user: string, amount: int)                  // AddUserQuota
    | Debit(user: string, amount: int)                   // AddUserUsed by a transfer
    | Consume(user: string, cost: int)                   // AddUserUsed by the relay
    | Enter(bill: Bill)                                  // AppendBilling
    | CountUsers(name: string, quota: int, code: string)
    | Enrol(name: string, role: string, quota: int, code: string)
    | LoadInvite(name: string, code: string)
    | SaveInvite(code: string, invitation: Invitation)
    | Mint(quota: int, names: seq<string>)
    | Flip(code: string, user: string)
    | FindSender(sender: string, recipient: string, amount: int)
    | FindRecipient(sender: string, recipient: string, amount: int, remaining: int)
    | FindRefunded(user: string, amount: int)
    | LoadOrder(id: string)
    | SaveOrder(order: Order)
    | CreditOrder(order: Order)
    | MarkCredited(id: string)
    | CheckDay(user: string, day: string, quota: int)
    | MarkDay(user: string, day: string)

  datatype Request =
    | Subscribe(user: string, amount: int)
    | DailyGrant(grants: seq<Grant>)
    | Transfer(sender: string, recipient: string, amount: int)
    | Refund(user: string, amount: int)
    | Adjust(user: string, amount: int)
    | Recharge(names: seq<string>, amount: int)
    | Checkin(user: string, day: string, quota: int)
    | Register(name: string, quota: int, code: string)    // with an invitation unless the code is empty
    | Redeem(code: string, user: string)
    | MakeCodes(quota: int, names: seq<string>)
    | PlaceOrder(order: Order)
    | Callback(id: string)
    | Relay(owner: string, cost: int)

  // ----- The handlers.

  /** A credit and the bill for it. */
  function Granted(user: string, kind: string, amount: int): seq<Action> {
    [Credit(user, amount), Enter(Bill(user, kind, amount))]
  }

  function Grants(grants: seq<Grant>): seq<Action> {
    if grants == [] then []
    else Grants(grants[..|grants| - 1])
         + Granted(grants[|grants| - 1].user, "subscribe", grants[|grants| - 1].amount)
  }

  function Recharges(names: seq<string>, amount: int): seq<Action> {
    if names == [] then []
    else
      var name := Bytes.TrimSpace(names[|names| - 1]);
      Recharges(names[..|names| - 1], amount) + if name == "" then [] else Granted(name, "recharge", amount)
  }

  /** The inviter's tenth, when it is positive. */
  function Invited(name: string, inv: Invitation): seq<Action> {
    Granted(name, "invite", inv.quota)
    + if inv.quota / 10 > 0 then Granted(inv.inviter, "invite_bonus", inv.quota / 10) else []
  }

  /** The account a registration opens when it found these users. */
  function NewAccount(users: seq<User>, name: string, quota: int): User {
    if users == [] then User(name, "root", 1, -1, 0) else User(name, "user", 1, quota, 0)
  }

  /** The invitation can be used once more. */
  predicate Open(b: Books, code: string) {
    code in b.invites && b.invites[code].used < b.invites[code].count
  }

  function UsedOnce(inv: Invitation): Invitation {
    inv.(used := inv.used + 1)
  }

  function Moved(sender: string, recipient: string, amount: int): seq<Action> {
    [Debit(sender, amount), Credit(recipient, amount),
     Enter(Bill(sender, "transfer", -amount)), Enter(Bill(recipient, "transfer", amount))]
  }

  function Script(r: Request): seq<Action> {
    match r
    case Subscribe(user, amount) => Granted(user, "subscribe", amount)
    case DailyGrant(grants) => Grants(grants)
    case Transfer(sender, recipient, amount) =>
      if recipient == "" || amount <= 0 then [] else [FindSender(sender, recipient, amount)]
    case Refund(user, amount) => if user == "" || amount <= 0 then [] else [FindRefunded(user, amount)]
    case Adjust(user, amount) => if user == "" then [] else Granted(user, "adjust", amount)
    case Recharge(names, amount) => Recharges(names, amount)
    case Checkin(user, day, quota) => [CheckDay(user, day, quota)]
    case Register(name, quota, code) => [CountUsers(name, quota, code)]
    case Redeem(code, user) => if code == "" then [] else [Flip(code, user)]
    case MakeCodes(quota, names) => if 0 < |names| <= 100 && quota > 0 then [Mint(quota, names)] else []
    case PlaceOrder(o) => if o.amount <= 0 then [] else [SaveOrder(o), CreditOrder(o)]
    case Callback(id) => if id == "" then [] else [LoadOrder(id)]
    case Relay(owner, cost) => [Consume(owner, cost)]
  }

  function FirstCode(codes: seq<Code>, code: string): (i: nat)
    ensures i <= |codes|
    ensures forall j :: 0 <= j < i ==> codes[j].code != code
    ensures i < |codes| ==> codes[i].code == code
  {
    if codes == [] || codes[0].code == code then 0 else 1 + FirstCode(codes[1..], code)
  }

  /** The code is there and was never used. */
  predicate Redeemable(codes: seq<Code>, code: string) {
    var i := FirstCode(codes, code);
    i < |codes| && codes[i].status == 1
  }

  function NewCodes(quota: int, names: seq<string>): seq<Code> {
    seq(|names|, i requires 0 <= i < |names| => Code(names[i], quota, 1, ""))
  }

  /** What the call does to the books. */
  function Effect(b: Books, a: Action): Books {
    match a
    case Credit(user, amount) => b.(users := AddQuota(b.users, user, amount))
    case Debit(user, amount) => b.(users := AddUsed(b.users, user, amount))
    case Consume(user, cost) => b.(users := AddUsed(b.users, user, cost))
    case Enter(bill) => b.(bills := b.bills + [bill])
    case Enrol(name, role, quota, _) =>
      if Exists(b.users, name) then b else b.(users := b.users + [User(name, role, 1, quota, 0)])
    case Mint(quota, names) => b.(codes := b.codes + NewCodes(quota, names))
    case Flip(code, user) =>
      if Redeemable(b.codes, code) then
        var i := FirstCode(b.codes, code);
        b.(codes := b.codes[i := b.codes[i].(status := 0, taker := user)])
      else b
    case SaveOrder(o) => b.(orders := b.orders[o.id := o])
    case MarkCredited(id) => b.(credited := b.credited + {id})
    case MarkDay(user, day) => b.(checkins := b.checkins[user := day])
    case SaveInvite(code, inv) => b.(invites := b.invites[code := inv])
    case _ => b
  }

  /** What the handler goes on to do, depending on what it read. */
  function More(b: Books, a: Action): seq<Action> {
    match a
    case CountUsers(name, quota, code) =>
      [if b.users == [] then Enrol(name, "root", -1, code) else Enrol(name, "user", quota, code)]
    case Enrol(name, _, _, code) => if Exists(b.users, name) || code == "" then [] else [LoadInvite(name, code)]
    case LoadInvite(name, code) =>
      if Open(b, code) then
        var inv := UsedOnce(b.invites[code]);
        [SaveInvite(code, inv)] + Invited(name, inv)
      else []
    case Flip(code, user) =>
      if Redeemable(b.codes, code) then [Credit(user, b.codes[FirstCode(b.codes, code)].quota)] else []
    case FindSender(sender, recipient, amount) =>
      if IsRoot(b.users, sender) || recipient == sender || !Exists(b.users, sender) then []
      else
        var u := b.users[FirstUser(b.users, sender)];
        [FindRecipient(sender, recipient, amount, u.quota - u.used)]
    case FindRecipient(sender, recipient, amount, remaining) =>
      if !Exists(b.users, recipient) || remaining < amount then [] else Moved(sender, recipient, amount)
    case FindRefunded(user, amount) => if Exists(b.users, user) then Granted(user, "refund", amount) else []
    case LoadOrder(id) =>
      if id in b.orders && b.orders[id].status == "pending" then
        var o := b.orders[id].(status := "paid");
        [SaveOrder(o), CreditOrder(o)]
      else []
    case CreditOrder(o) =>
      if o.status == "paid" && o.id !in b.credited then Granted(o.user, "recharge", o.amount) + [MarkCredited(o.id)]
      else []
    case CheckDay(user, day, quota) =>
      if user in b.checkins && b.checkins[user] == day then []
      else Granted(user, "checkin", quota) + [MarkDay(user, day)]
    case _ => []
  }

  // ----- The machine: one script per goroutine, and a history of what happened.

  datatype State = State(books: Books, scripts: seq<seq<Action>>,
                         openings: seq<Bill>,     // the quota each account was opened with
                         usage: seq<Bill>,        // what the relay charged
                         lost: seq<Bill>,         // credits that found nobody
                         docked: seq<Bill>,       // what credits below zero took
                         spent: seq<nat>,         // the codes redeemed
                         paid: seq<string>,       // the orders credited
                         days: seq<DayGrant>,     // the check-ins credited
                         joined: seq<string>)     // the invitations accepted

  datatype Step = Begin(t: nat, request: Request) | Act(t: nat)

  predicate Enabled(s: State, step: Step) {
    step.t < |s.scripts| && (step.Begin? <==> s.scripts[step.t] == [])
  }

  function Noted(s: State, a: Action): State {
    var b := s.books;
    match a
    case Credit(user, amount) =>
      if !Exists(b.users, user) then s.(lost := s.lost + [Bill(user, "lost", amount)])
      else if amount < 0 then s.(docked := s.docked + [Bill(user, "docked", -amount)])
      else s
    case Debit(user, amount) =>
      if user != "" && Exists(b.users, user) then s else s.(lost := s.lost + [Bill(user, "lost", -amount)])
    case Consume(user, cost) =>
      if user != "" && Exists(b.users, user) then s.(usage := s.usage + [Bill(user, "usage", cost)]) else s
    case Enrol(name, _, quota, _) =>
      if Exists(b.users, name) then s else s.(openings := s.openings + [Bill(name, "opening", quota)])
    case Flip(code, _) =>
      if Redeemable(b.codes, code) then s.(spent := s.spent + [FirstCode(b.codes, code)]) else s
    case CreditOrder(o) =>
      if o.status == "paid" && o.id !in b.credited then s.(paid := s.paid + [o.id]) else s
    case CheckDay(user, day, _) =>
      if user in b.checkins && b.checkins[user] == day then s else s.(days := s.days + [DayGrant(user, day)])
    case LoadInvite(_, code) => if Open(b, code) then s.(joined := s.joined + [code]) else s
    case _ => s
  }

  function Apply(s: State, step: Step): State
    requires Enabled(s, step)
  {
    match step
    case Begin(t, request) => s.(scripts := s.scripts[t := Script(request)])
    case Act(t) =>
      var a, rest := s.scripts[t][0], s.scripts[t][1..];
      Noted(s, a).(books := Effect(s.books, a), scripts := s.scripts[t := More(s.books, a) + rest])
  }

  predicate Possible(s: State, steps: seq<Step>)
    decreases steps
  {
    steps == [] || (Enabled(s, steps[0]) && Possible(Apply(s, steps[0]), steps[1..]))
  }

  function Run(s: State, steps: seq<Step>): State
    requires Possible(s, steps)
    decreases steps
  {
    if steps == [] then s else Run(Apply(s, steps[0]), steps[1..])
  }

  lemma Prepend(s: State, step: Step, rest: seq<Step>)
    requires Enabled(s, step) && Possible(Apply(s, step), rest)
    ensures Possible(s, [step] + rest) && Run(s, [step] + rest) == Run(Apply(s, step), rest)
  {
    assert ([step] + rest)[1..] == rest;
  }

  lemma {:induction false} RunJoin(s: State, a: seq<Step>, b: seq<Step>)
    requires Possible(s, a) && Possible(Run(s, a), b)
    ensures Possible(s, a + b) && Run(s, a + b) == Run(Run(s, a), b)
    decreases a
  {
    if a == [] {
      assert a + b == b;
    } else {
      var next := Apply(s, a[0]);
      RunJoin(next, a[1..], b);
      Prepend(s, a[0], a[1..] + b);
      Associates([a[0]], a[1..], b);
      assert a == [a[0]] + a[1..];
    }
  }

  /** Two steps from one state to the other. */
  predicate Leads(s: State, a: Step, b: Step, v: State) {
    Enabled(s, a) && Enabled(Apply(s, a), b) && Apply(Apply(s, a), b) == v
  }

  lemma LeadsOn(s: State, a: Step, b: Step, v: State, rest: seq<Step>)
    requires Leads(s, a, b, v) && Possible(v, rest)
    ensures Possible(s, [a] + ([b] + rest)) && Run(s, [a] + ([b] + rest)) == Run(v, rest)
  {
    Prepend(Apply(s, a), b, rest);
    Prepend(s, a, [b] + rest);
  }

  /** No handler is half-way through. */
  predicate Quiet(s: State) {
    forall t :: 0 <= t < |s.scripts| ==> s.scripts[t] == []
  }

  // ----- What the books say about one name.

  function Of(name: string): Bill -> int {
    (b: Bill) => if b.user == name then b.amount else 0
  }

  function WonBy(name: string): Code -> int {
    (c: Code) => if c.status == 0 && c.taker == name then c.quota else 0
  }

  function Balance(users: seq<User>, name: string): int {
    if Exists(users, name) then users[FirstUser(users, name)].quota - users[FirstUser(users, name)].used else 0
  }

  function Redeemed(b: Books, name: string): int {
    Total(b.codes, WonBy(name))
  }

  function Billed(b: Books, name: string): int {
    Total(b.bills, Of(name))
  }

  /** What is left and what was used is what came in. */
  predicate Reconciled(s: State, name: string) {
    Balance(s.books.users, name) + Total(s.usage, Of(name))
    == Total(s.openings, Of(name)) + Billed(s.books, name) + Redeemed(s.books, name)
  }

  /** What the call will still add to the balance beyond what it will bill. */
  function Owes(name: string): Action -> int {
    (a: Action) => match a
      case Credit(user, amount) => if user == name then amount else 0
      case Debit(user, amount) => if user == name then -amount else 0
      case Enter(bill) => if bill.user == name then -bill.amount else 0
      case _ => 0
  }

  function ScriptOwes(name: string): seq<Action> -> int {
    (script: seq<Action>) => Total(script, Owes(name))
  }

  function Position(s: State, name: string): int {
    Balance(s.books.users, name) + Total(s.usage, Of(name)) + Total(s.lost, Of(name))
    - Total(s.openings, Of(name)) - Billed(s.books, name) - Redeemed(s.books, name)
    + Total(s.scripts, ScriptOwes(name))
  }

  // ----- Scripts owe nothing before they start.

  lemma GrantedOwes(user: string, kind: string, amount: int, name: string)
    ensures Total(Granted(user, kind, amount), Owes(name)) == 0
  {
    var credit, bill := Credit(user, amount), Enter(Bill(user, kind, amount));
    assert Granted(user, kind, amount) == [credit] + [bill] && [credit] == [] + [credit];
    TotalPush([], credit, Owes(name));
    TotalPush([credit], bill, Owes(name));
  }

  lemma MovedOwes(sender: string, recipient: string, amount: int, name: string)
    ensures Total(Moved(sender, recipient, amount), Owes(name)) == 0
  {
    TotalFour(Moved(sender, recipient, amount), Owes(name));
  }

  lemma TotalFour(s: seq<Action>, f: Action -> int)
    requires |s| == 4
    ensures Total(s, f) == f(s[0]) + f(s[1]) + f(s[2]) + f(s[3])
  {
    TotalPush([], s[0], f);
    TotalPush([s[0]], s[1], f);
    TotalPush([s[0], s[1]], s[2], f);
    TotalPush([s[0], s[1], s[2]], s[3], f);
    assert s == [s[0], s[1], s[2]] + [s[3]];
    assert [] + [s[0]] == [s[0]];
    assert [s[0]] + [s[1]] == [s[0], s[1]];
    assert [s[0], s[1]] + [s[2]] == [s[0], s[1], s[2]];
  }

  lemma {:induction false} GrantsOwe(grants: seq<Grant>, name: string)
    ensures Total(Grants(grants), Owes(name)) == 0
  {
    if grants == [] {
    } else {
      var last := grants[|grants| - 1];
      GrantsOwe(grants[..|grants| - 1], name);
      GrantedOwes(last.user, "subscribe", last.amount, name);
      TotalJoin(Grants(grants[..|grants| - 1]), Granted(last.user, "subscribe", last.amount), Owes(name));
    }
  }

  lemma {:induction false} RechargesOwe(names: seq<string>, amount: int, name: string)
    ensures Total(Recharges(names, amount), Owes(name)) == 0
  {
    if names == [] {
    } else {
      var init := names[..|names| - 1];
      var last := Bytes.TrimSpace(names[|names| - 1]);
      RechargesOwe(init, amount, name);
      if last != "" {
        GrantedOwes(last, "recharge", amount, name);
        TotalJoin(Recharges(init, amount), Granted(last, "recharge", amount), Owes(name));
        assert Recharges(names, amount) == Recharges(init, amount) + Granted(last, "recharge", amount);
      } else {
        assert Recharges(names, amount) == Recharges(init, amount);
      }
    }
  }

  lemma InvitedOwes(who: string, inv: Invitation, name: string)
    ensures Total(Invited(who, inv), Owes(name)) == 0
  {
    var bonus := if inv.quota / 10 > 0 then Granted(inv.inviter, "invite_bonus", inv.quota / 10) else [];
    GrantedOwes(who, "invite", inv.quota, name);
    GrantedOwes(inv.inviter, "invite_bonus", inv.quota / 10, name);
    TotalJoin(Granted(who, "invite", inv.quota), bonus, Owes(name));
  }

  lemma WelcomeOwes(b: Books, who: string, code: string, name: string)
    ensures Total(More(b, LoadInvite(who, code)), Owes(name)) == 0
  {
    if Open(b, code) {
      var inv := UsedOnce(b.invites[code]);
      InvitedOwes(who, inv, name);
      TotalPush([], SaveInvite(code, inv), Owes(name));
      TotalJoin([] + [SaveInvite(code, inv)], Invited(who, inv), Owes(name));
      EmptyFirst([SaveInvite(code, inv)]);
    }
  }

  lemma ScriptOwesNothing(r: Request, name: string)
    ensures Total(Script(r), Owes(name)) == 0
  {
    match r
    case Subscribe(user, amount) => GrantedOwes(user, "subscribe", amount, name);
    case DailyGrant(grants) => GrantsOwe(grants, name);
    case Adjust(user, amount) => GrantedOwes(user, "adjust", amount, name);
    case Recharge(names, amount) => RechargesOwe(names, amount, name);
    case _ => TotalZero(Script(r), Owes(name));
  }

  // ----- One call.

  lemma {:induction false} FirstKept(users: seq<User>, more: seq<User>, name: string)
    requires |users| <= |more| && forall i :: 0 <= i < |users| ==> users[i].name == more[i].name
    requires Exists(users, name)
    ensures FirstUser(more, name) == FirstUser(users, name)
  {
  }

  lemma AddQuotaBalance(users: seq<User>, user: string, n: int, name: string)
    ensures Balance(AddQuota(users, user, n), name)
            == Balance(users, name) + if user == name && Exists(users, user) then n else 0
  {
    SameFirst(users, AddQuota(users, user, n), name);
  }

  lemma AddUsedBalance(users: seq<User>, user: string, n: int, name: string)
    ensures Balance(AddUsed(users, user, n), name)
            == Balance(users, name) - if user == name && user != "" && Exists(users, user) then n else 0
  {
    SameFirst(users, AddUsed(users, user, n), name);
  }

  lemma EnrolBalance(users: seq<User>, u: User, name: string)
    requires !Exists(users, u.name)
    ensures Balance(users + [u], name) == Balance(users, name) + if u.name == name then u.quota - u.used else 0
  {
    var more := users + [u];
    if u.name == name {
      assert more[|users|] == u;
      assert FirstUser(more, name) == |users|;
    } else if Exists(users, name) {
      FirstKept(users, more, name);
    } else {
      assert FirstUser(more, name) == |more|;
    }
  }

  lemma MintRedeemed(b: Books, quota: int, names: seq<string>, name: string)
    ensures Redeemed(Effect(b, Mint(quota, names)), name) == Redeemed(b, name)
  {
    TotalJoin(b.codes, NewCodes(quota, names), WonBy(name));
    TotalZero(NewCodes(quota, names), WonBy(name));
  }

  lemma FlipRedeemed(b: Books, code: string, user: string, name: string)
    ensures Redeemed(Effect(b, Flip(code, user)), name)
            == Redeemed(b, name) + Total(More(b, Flip(code, user)), Owes(name))
  {
    if Redeemable(b.codes, code) {
      var i := FirstCode(b.codes, code);
      TotalSet(b.codes, i, b.codes[i].(status := 0, taker := user), WonBy(name));
      TotalPush([], Credit(user, b.codes[i].quota), Owes(name));
    }
  }

  /** The position without the scripts. */
  function Recorded(s: State, name: string): int {
    Balance(s.books.users, name) + Total(s.usage, Of(name)) + Total(s.lost, Of(name))
    - Total(s.openings, Of(name)) - Billed(s.books, name) - Redeemed(s.books, name)
  }

  function Called(s: State, a: Action): State {
    Noted(s, a).(books := Effect(s.books, a))
  }

  lemma CreditMoney(s: State, user: string, amount: int, name: string)
    ensures Recorded(Called(s, Credit(user, amount)), name) == Recorded(s, name) + if user == name then amount else 0
  {
    AddQuotaBalance(s.books.users, user, amount, name);
    TotalPush(s.lost, Bill(user, "lost", amount), Of(name));
  }

  lemma DebitMoney(s: State, user: string, amount: int, name: string)
    ensures Recorded(Called(s, Debit(user, amount)), name) == Recorded(s, name) - if user == name then amount else 0
  {
    AddUsedBalance(s.books.users, user, amount, name);
    TotalPush(s.lost, Bill(user, "lost", -amount), Of(name));
  }

  lemma ConsumeMoney(s: State, user: string, cost: int, name: string)
    ensures Recorded(Called(s, Consume(user, cost)), name) == Recorded(s, name)
  {
    AddUsedBalance(s.books.users, user, cost, name);
    TotalPush(s.usage, Bill(user, "usage", cost), Of(name));
  }

  lemma CallMoney(s: State, a: Action, name: string)
    requires a.Credit? || a.Debit? || a.Consume? || a.Enter?
    ensures Recorded(Called(s, a), name) == Recorded(s, name) + Owes(name)(a)
    ensures More(s.books, a) == []
  {
    match a
    case Credit(user, amount) => CreditMoney(s, user, amount, name);
    case Debit(user, amount) => DebitMoney(s, user, amount, name);
    case Consume(user, cost) => ConsumeMoney(s, user, cost, name);
    case Enter(bill) => TotalPush(s.books.bills, bill, Of(name));
  }

  lemma GrantedThenOwes(user: string, kind: string, amount: int, mark: Action, name: string)
    requires mark.MarkCredited? || mark.MarkDay?
    ensures Total(Granted(user, kind, amount) + [mark], Owes(name)) == 0
  {
    GrantedOwes(user, kind, amount, name);
    TotalPush(Granted(user, kind, amount), mark, Owes(name));
  }

  lemma PlainOwes(script: seq<Action>, name: string)
    requires forall i :: 0 <= i < |script| ==> !(script[i].Credit? || script[i].Debit? || script[i].Enter?)
    ensures Total(script, Owes(name)) == 0
  {
    TotalZero(script, Owes(name));
  }

  lemma MoreOwes(b: Books, a: Action, name: string)
    requires !(a.Credit? || a.Debit? || a.Consume? || a.Enter? || a.Flip?)
    ensures Total(More(b, a), Owes(name)) == 0
  {
    match a
    case LoadInvite(who, code) => WelcomeOwes(b, who, code, name);
    case FindRecipient(sender, recipient, amount, _) => MovedOwes(sender, recipient, amount, name);
    case FindRefunded(user, amount) => GrantedOwes(user, "refund", amount, name);
    case CreditOrder(o) => GrantedThenOwes(o.user, "recharge", o.amount, MarkCredited(o.id), name);
    case CheckDay(user, day, quota) => GrantedThenOwes(user, "checkin", quota, MarkDay(user, day), name);
    case _ => PlainOwes(More(b, a), name);
  }

  /** A read, or a write of something that is not money. */
  predicate Moneyless(a: Action) {
    !(a.Credit? || a.Debit? || a.Consume? || a.Enter? || a.Flip? || a.Enrol? || a.Mint?)
  }

  lemma MoneylessKeeps(s: State, a: Action)
    requires Moneyless(a)
    ensures var v := Called(s, a);
            && v.books.users == s.books.users && v.books.bills == s.books.bills && v.books.codes == s.books.codes
            && v.usage == s.usage && v.lost == s.lost && v.openings == s.openings
  {
  }

  lemma EnrolRecorded(s: State, a: Action, name: string)
    requires a.Enrol?
    ensures Recorded(Called(s, a), name) == Recorded(s, name)
  {
    if !Exists(s.books.users, a.name) {
      EnrolBalance(s.books.users, User(a.name, a.role, 1, a.quota, 0), name);
      TotalPush(s.openings, Bill(a.name, "opening", a.quota), Of(name));
    }
  }

  lemma CallOther(s: State, a: Action, name: string)
    requires !(a.Credit? || a.Debit? || a.Consume? || a.Enter? || a.Flip?)
    ensures Recorded(Called(s, a), name) == Recorded(s, name)
  {
    if a.Enrol? {
      EnrolRecorded(s, a, name);
    } else if a.Mint? {
      MintRedeemed(s.books, a.quota, a.names, name);
    } else {
      MoneylessKeeps(s, a);
    }
  }

  /** What one call changes in the records is what its script owed before and no longer owes. */
  lemma CallConserves(s: State, a: Action, name: string)
    ensures Recorded(Called(s, a), name) + Total(More(s.books, a), Owes(name)) == Recorded(s, name) + Owes(name)(a)
  {
    if a.Credit? || a.Debit? || a.Consume? || a.Enter? {
      CallMoney(s, a, name);
    } else if a.Flip? {
      FlipRedeemed(s.books, a.code, a.user, name);
    } else {
      MoreOwes(s.books, a, name);
      CallOther(s, a, name);
    }
  }

  lemma {:induction false} HeadOwes(script: seq<Action>, name: string)
    requires script != []
    ensures Total(script, Owes(name)) == Owes(name)(script[0]) + Total(script[1..], Owes(name))
  {
    TotalPush([], script[0], Owes(name));
    TotalJoin([] + [script[0]], script[1..], Owes(name));
    assert ([] + [script[0]]) + script[1..] == script;
  }

  lemma StepConserves(s: State, step: Step, name: string)
    requires Enabled(s, step)
    ensures Position(Apply(s, step), name) == Position(s, name)
  {
    var v := Apply(s, step);
    TotalSet(s.scripts, step.t, v.scripts[step.t], ScriptOwes(name));
    match step
    case Begin(_, request) => ScriptOwesNothing(request, name);
    case Act(t) =>
      var a, rest := s.scripts[t][0], s.scripts[t][1..];
      HeadOwes(s.scripts[t], name);
      TotalJoin(More(s.books, a), rest, Owes(name));
      CallConserves(s, a, name);
      assert Recorded(v, name) == Recorded(Called(s, a), name);
  }

  lemma {:induction false} RunConserves(s: State, steps: seq<Step>, name: string)
    requires Possible(s, steps)
    ensures Position(Run(s, steps), name) == Position(s, name)
    decreases steps
  {
    if steps == [] {
    } else {
      StepConserves(s, steps[0], name);
      RunConserves(Apply(s, steps[0]), steps[1..], name);
    }
  }

  lemma QuietOwes(s: State, name: string)
    requires Quiet(s)
    ensures Total(s.scripts, ScriptOwes(name)) == 0
  {
    TotalZero(s.scripts, ScriptOwes(name));
  }

  /**
    However the handlers interleave, once all are done the books of a name that
    reconciled before reconcile again exactly when no credit to that name got lost.
   */
  lemma ReconcilesUnlessLost(s: State, steps: seq<Step>, name: string)
    requires Quiet(s) && Possible(s, steps) && Quiet(Run(s, steps)) && Reconciled(s, name)
    ensures Reconciled(Run(s, steps), name) <==> Total(Run(s, steps).lost, Of(name)) == Total(s.lost, Of(name))
  {
    QuietOwes(s, name);
    QuietOwes(Run(s, steps), name);
    RunConserves(s, steps, name);
  }
}
