/**
  When the books reconcile: for users that exist, for transfers over all users
  together, and for redemption codes one by one.
 */
module Reconciliation {
  import opened Accounts
  import opened Sums
  import opened Ledger
  import Bytes
  import opened Sequences

  // ----- Requests that name only users the system knows.

  /**
    Whom the handler will credit without looking.  Transfers and refunds look
    their users up, so they need nothing; a session always has a name.
   */
  predicate Knows(b: Books, r: Request) {
    match r
    case Subscribe(user, _) => Exists(b.users, user)
    case DailyGrant(grants) => forall i :: 0 <= i < |grants| ==> Exists(b.users, grants[i].user)
    case Transfer(sender, _, _) => sender != ""
    case Adjust(user, _) => Exists(b.users, user)
    case Recharge(names, _) =>
      forall i :: 0 <= i < |names| && Bytes.TrimSpace(names[i]) != "" ==> Exists(b.users, Bytes.TrimSpace(names[i]))
    case Checkin(user, _, _) => Exists(b.users, user)
    case Redeem(_, user) => Exists(b.users, user)
    case PlaceOrder(o) => Exists(b.users, o.user)
    case _ => true
  }

  /** The users a pending call credits or charges are there. */
  predicate Safe(users: seq<User>, a: Action) {
    match a
    case Credit(user, _) => Exists(users, user)
    case Debit(user, _) => user != "" && Exists(users, user)
    case LoadInvite(name, _) => Exists(users, name)
    case SaveInvite(_, inv) => Exists(users, inv.inviter)
    case Flip(_, user) => Exists(users, user)
    case FindSender(sender, _, _) => sender != ""
    case FindRecipient(sender, _, _, _) => sender != "" && Exists(users, sender)
    case SaveOrder(o) => Exists(users, o.user)
    case CreditOrder(o) => Exists(users, o.user)
    case CheckDay(user, _, _) => Exists(users, user)
    case _ => true
  }

  predicate AllSafe(users: seq<User>, script: seq<Action>) {
    forall i :: 0 <= i < |script| ==> Safe(users, script[i])
  }

  /** Orders were placed, and invitations sent, by users that are there. */
  predicate StoreSafe(b: Books) {
    && (forall id :: id in b.orders ==> Exists(b.users, b.orders[id].user))
    && (forall code :: code in b.invites ==> Exists(b.users, b.invites[code].inviter))
  }

  ghost predicate ScriptsSafe(s: State) {
    forall t :: 0 <= t < |s.scripts| ==> AllSafe(s.books.users, s.scripts[t])
  }

  ghost predicate Sound(s: State) {
    StoreSafe(s.books) && ScriptsSafe(s)
  }

  predicate OfTransfer(a: Action) {
    a.FindSender? || a.FindRecipient? || a.Debit? || a.Credit? || a.Enter?
  }

  predicate AllKnown(s: State, steps: seq<Step>)
    requires Possible(s, steps)
    decreases steps
  {
    steps == [] || (&& (steps[0].Begin? ==> Knows(s.books, steps[0].request))
                    && AllKnown(Apply(s, steps[0]), steps[1..]))
  }

  lemma {:induction false} GrantsSafe(users: seq<User>, grants: seq<Grant>)
    requires forall i :: 0 <= i < |grants| ==> Exists(users, grants[i].user)
    ensures AllSafe(users, Grants(grants))
  {
    if grants == [] {
    } else {
      GrantsSafe(users, grants[..|grants| - 1]);
    }
  }

  lemma {:induction false} RechargesSafe(users: seq<User>, names: seq<string>, amount: int)
    requires forall i :: 0 <= i < |names| && Bytes.TrimSpace(names[i]) != "" ==>
               Exists(users, Bytes.TrimSpace(names[i]))
    ensures AllSafe(users, Recharges(names, amount))
  {
    if names == [] {
    } else {
      RechargesSafe(users, names[..|names| - 1], amount);
    }
  }

  lemma KnownScript(b: Books, r: Request)
    requires Knows(b, r)
    ensures AllSafe(b.users, Script(r))
  {
    match r
    case DailyGrant(grants) => GrantsSafe(b.users, grants);
    case Recharge(names, amount) => RechargesSafe(b.users, names, amount);
    case _ =>
  }

  /** Nobody disappears. */
  ghost predicate Stays(users: seq<User>, more: seq<User>) {
    forall name :: Exists(users, name) ==> Exists(more, name)
  }

  lemma CallStays(b: Books, a: Action)
    ensures Stays(b.users, Effect(b, a).users)
  {
    forall name | Exists(b.users, name)
      ensures Exists(Effect(b, a).users, name)
    {
      FirstKept(b.users, Effect(b, a).users, name);
    }
  }

  lemma EnrolledExists(b: Books, a: Action)
    requires a.Enrol?
    ensures Exists(Effect(b, a).users, a.name)
  {
    if !Exists(b.users, a.name) {
      assert Effect(b, a).users[|b.users|].name == a.name;
    }
  }

  lemma GrantedSafe(users: seq<User>, user: string, kind: string, amount: int)
    requires Exists(users, user)
    ensures AllSafe(users, Granted(user, kind, amount))
  {
  }

  lemma WelcomeSafe(b: Books, name: string, code: string)
    requires Exists(b.users, name) && StoreSafe(b)
    ensures AllSafe(b.users, More(b, LoadInvite(name, code)))
  {
    if Open(b, code) {
      var inv := UsedOnce(b.invites[code]);
      GrantedSafe(b.users, name, "invite", inv.quota);
      GrantedSafe(b.users, inv.inviter, "invite_bonus", inv.quota / 10);
      AllSafeJoin(b.users, [SaveInvite(code, inv)], Invited(name, inv));
    }
  }

  lemma AllSafeJoin(users: seq<User>, a: seq<Action>, b: seq<Action>)
    requires AllSafe(users, a) && AllSafe(users, b)
    ensures AllSafe(users, a + b)
  {
  }

  /** What a handler does next credits only users that are there. */
  lemma MoreSafe(b: Books, a: Action)
    requires Safe(b.users, a) && (StoreSafe(b) || OfTransfer(a))
    ensures AllSafe(Effect(b, a).users, More(b, a))
  {
    CallStays(b, a);
    match a
    case Enrol(_, _, _, _) => EnrolledExists(b, a);
    case LoadInvite(name, code) => WelcomeSafe(b, name, code);
    case FindRefunded(user, amount) =>
      if Exists(b.users, user) {
        GrantedSafe(b.users, user, "refund", amount);
      }
    case CreditOrder(o) => GrantedThenMark(b.users, o.user, "recharge", o.amount, MarkCredited(o.id));
    case CheckDay(user, day, quota) => GrantedThenMark(b.users, user, "checkin", quota, MarkDay(user, day));
    case _ =>
  }

  lemma GrantedThenMark(users: seq<User>, user: string, kind: string, amount: int, mark: Action)
    requires Exists(users, user) && (mark.MarkCredited? || mark.MarkDay?)
    ensures AllSafe(users, Granted(user, kind, amount) + [mark])
  {
    GrantedSafe(users, user, kind, amount);
    AllSafeJoin(users, Granted(user, kind, amount), [mark]);
  }

  lemma EffectStoreSafe(b: Books, a: Action)
    requires Safe(b.users, a) && StoreSafe(b)
    ensures StoreSafe(Effect(b, a))
  {
    CallStays(b, a);
  }

  lemma AllSafeLater(users: seq<User>, more: seq<User>, script: seq<Action>)
    requires Stays(users, more) && AllSafe(users, script)
    ensures AllSafe(more, script)
  {
    forall i | 0 <= i < |script|
      ensures Safe(more, script[i])
    {
      assert Safe(users, script[i]);
    }
  }

  lemma StepSound(s: State, step: Step)
    requires Sound(s) && Enabled(s, step) && (step.Begin? ==> Knows(s.books, step.request))
    ensures Sound(Apply(s, step)) && Apply(s, step).lost == s.lost
  {
    match step
    case Begin(_, request) => KnownScript(s.books, request);
    case Act(t) => ActSound(s, t);
  }

  lemma ActSound(s: State, t: nat)
    requires Sound(s) && Enabled(s, Act(t))
    ensures Sound(Apply(s, Act(t))) && Apply(s, Act(t)).lost == s.lost
  {
    ActSafe(s, t);
    assert AllSafe(s.books.users, s.scripts[t]);
    EffectStoreSafe(s.books, s.scripts[t][0]);
  }

  lemma ActSafe(s: State, t: nat)
    requires ScriptsSafe(s) && Enabled(s, Act(t)) && (StoreSafe(s.books) || OfTransfer(s.scripts[t][0]))
    ensures ScriptsSafe(Apply(s, Act(t))) && Apply(s, Act(t)).lost == s.lost
  {
    var users := s.books.users;
    assert AllSafe(users, s.scripts[t]);
    var a, rest := s.scripts[t][0], s.scripts[t][1..];
    assert Safe(users, a) && AllSafe(users, rest);
    var later := Effect(s.books, a).users;
    CallStays(s.books, a);
    MoreSafe(s.books, a);
    forall x | 0 <= x < |s.scripts|
      ensures AllSafe(later, Apply(s, Act(t)).scripts[x])
    {
      if x == t {
        AllSafeLater(users, later, rest);
        AllSafeJoin(later, More(s.books, a), rest);
      } else {
        assert AllSafe(users, s.scripts[x]);
        AllSafeLater(users, later, s.scripts[x]);
      }
    }
  }

  lemma {:induction false} NothingLost(s: State, steps: seq<Step>)
    requires Sound(s) && Possible(s, steps) && AllKnown(s, steps)
    ensures Run(s, steps).lost == s.lost
    decreases steps
  {
    if steps == [] {
    } else {
      StepSound(s, steps[0]);
      NothingLost(Apply(s, steps[0]), steps[1..]);
    }
  }

  /**
    However credits, transfers, redemptions, payments, check-ins, invitations,
    daily grants and relay charges interleave: as long as they name existing
    users, every reconciled name is reconciled again once they are all done.
   */
  lemma KnownUsersReconcile(s: State, steps: seq<Step>, name: string)
    requires Quiet(s) && StoreSafe(s.books) && Possible(s, steps) && AllKnown(s, steps) && Quiet(Run(s, steps))
    requires Reconciled(s, name)
    ensures Reconciled(Run(s, steps), name)
  {
    NothingLost(s, steps);
    ReconcilesUnlessLost(s, steps, name);
  }

  function AdjustSteps(t: nat, user: string, amount: int): seq<Step> {
    [Begin(t, Adjust(user, amount)), Act(t), Act(t)]
  }

  lemma RunThree(s: State, steps: seq<Step>, a: State, b: State, c: State)
    requires |steps| == 3 && Enabled(s, steps[0]) && a == Apply(s, steps[0])
    requires Enabled(a, steps[1]) && b == Apply(a, steps[1])
    requires Enabled(b, steps[2]) && c == Apply(b, steps[2])
    ensures Possible(s, steps) && Run(s, steps) == c
  {
    Prepend(b, steps[2], []);
    Prepend(a, steps[1], [steps[2]] + []);
    Prepend(s, steps[0], [steps[1]] + ([steps[2]] + []));
    assert steps == [steps[0]] + ([steps[1]] + ([steps[2]] + []));
  }

  lemma AdjustRuns(s: State, t: nat, user: string, amount: int)
    requires Quiet(s) && t < |s.scripts| && user != ""
    ensures var steps := AdjustSteps(t, user, amount);
            && Possible(s, steps) && Quiet(Run(s, steps))
            && Run(s, steps).lost == s.lost + if Exists(s.books.users, user) then [] else [Bill(user, "lost", amount)]
  {
    var steps := AdjustSteps(t, user, amount);
    var a := Apply(s, steps[0]);
    assert a.scripts[t] == Granted(user, "adjust", amount);
    var b := Apply(a, steps[1]);
    assert b.scripts[t] == [Enter(Bill(user, "adjust", amount))];
    var c := Apply(b, steps[2]);
    assert c.scripts[t] == [];
    RunThree(s, steps, a, b, c);
  }

  /** The condition is needed: adjusting a user nobody has bills money that arrived nowhere. */
  lemma AdjustReconciles(s: State, t: nat, user: string, amount: int)
    requires Quiet(s) && t < |s.scripts| && user != "" && Reconciled(s, user)
    ensures var steps := AdjustSteps(t, user, amount);
            && Possible(s, steps) && Quiet(Run(s, steps))
            && (Reconciled(Run(s, steps), user) <==> Exists(s.books.users, user) || amount == 0)
  {
    AdjustRuns(s, t, user, amount);
    ReconcilesUnlessLost(s, AdjustSteps(t, user, amount), user);
    TotalPush(s.lost, Bill(user, "lost", amount), Of(user));
    if Exists(s.books.users, user) {
      assert s.lost + [] == s.lost;
    }
  }

  // ----- Transfers, over all users together.

  function Net(): User -> int {
    (u: User) => u.quota - u.used
  }

  /** What the call will still add to the users' total. */
  function Moves(): Action -> int {
    (a: Action) => match a
      case Credit(_, amount) => amount
      case Debit(_, amount) => -amount
      case _ => 0
  }

  function ScriptMoves(): seq<Action> -> int {
    (script: seq<Action>) => Total(script, Moves())
  }

  function Worth(s: State): int {
    Total(s.books.users, Net()) + Total(s.scripts, ScriptMoves())
  }

  ghost predicate OnlyTransfers(s: State) {
    forall t, i :: 0 <= t < |s.scripts| && 0 <= i < |s.scripts[t]| ==> OfTransfer(s.scripts[t][i])
  }

  predicate TransferSteps(steps: seq<Step>) {
    forall i :: 0 <= i < |steps| && steps[i].Begin? ==> steps[i].request.Transfer? && steps[i].request.sender != ""
  }

  lemma TransferCall(b: Books, a: Action)
    requires OfTransfer(a) && Safe(b.users, a)
    ensures Total(Effect(b, a).users, Net()) + Total(More(b, a), Moves()) == Total(b.users, Net()) + Moves()(a)
  {
    match a
    case Credit(user, amount) =>
      var i := FirstUser(b.users, user);
      TotalSet(b.users, i, Effect(b, a).users[i], Net());
    case Debit(user, amount) =>
      var i := FirstUser(b.users, user);
      TotalSet(b.users, i, Effect(b, a).users[i], Net());
    case FindRecipient(sender, recipient, amount, _) =>
      TotalFour(Moved(sender, recipient, amount), Moves());
    case _ => TotalZero(More(b, a), Moves());
  }

  lemma StepTransfers(s: State, step: Step)
    requires OnlyTransfers(s) && ScriptsSafe(s) && Enabled(s, step)
    requires step.Begin? ==> step.request.Transfer? && step.request.sender != ""
    ensures OnlyTransfers(Apply(s, step)) && ScriptsSafe(Apply(s, step))
  {
    var v := Apply(s, step);
    if step.Act? {
      assert OfTransfer(s.scripts[step.t][0]);
      ActSafe(s, step.t);
    } else {
      KnownScript(s.books, step.request);
    }
    forall x, i | 0 <= x < |v.scripts| && 0 <= i < |v.scripts[x]|
      ensures OfTransfer(v.scripts[x][i])
    {
      if x == step.t && step.Act? {
        var a, rest := s.scripts[x][0], s.scripts[x][1..];
        assert OfTransfer(a);
        var more := More(s.books, a);
        assert i >= |more| ==> v.scripts[x][i] == rest[i - |more|] == s.scripts[x][i - |more| + 1];
      }
    }
  }

  lemma HeadMoves(script: seq<Action>)
    requires script != []
    ensures Total(script, Moves()) == Moves()(script[0]) + Total(script[1..], Moves())
  {
    TotalPush([], script[0], Moves());
    TotalJoin([] + [script[0]], script[1..], Moves());
    assert ([] + [script[0]]) + script[1..] == script;
  }

  lemma StepWorth(s: State, step: Step)
    requires ScriptsSafe(s) && OnlyTransfers(s) && Enabled(s, step)
    requires step.Begin? ==> step.request.Transfer?
    ensures Worth(Apply(s, step)) == Worth(s)
  {
    var v := Apply(s, step);
    TotalSet(s.scripts, step.t, v.scripts[step.t], ScriptMoves());
    match step
    case Begin(_, request) => TotalZero(Script(request), Moves());
    case Act(t) =>
      var a := s.scripts[t][0];
      assert AllSafe(s.books.users, s.scripts[t]);
      assert OfTransfer(a) && Safe(s.books.users, a);
      TransferCall(s.books, a);
      TotalJoin(More(s.books, a), s.scripts[t][1..], Moves());
      HeadMoves(s.scripts[t]);
  }

  lemma {:induction false} RunWorth(s: State, steps: seq<Step>)
    requires ScriptsSafe(s) && OnlyTransfers(s) && Possible(s, steps) && TransferSteps(steps)
    ensures Worth(Run(s, steps)) == Worth(s)
    decreases steps
  {
    if steps == [] {
    } else {
      StepTransfers(s, steps[0]);
      StepWorth(s, steps[0]);
      RunWorth(Apply(s, steps[0]), steps[1..]);
    }
  }

  /** Any number of transfers at once leave the users' total as it was, refused or not. */
  lemma TransfersKeepTotal(s: State, steps: seq<Step>)
    requires Quiet(s) && Possible(s, steps) && TransferSteps(steps) && Quiet(Run(s, steps))
    ensures Total(Run(s, steps).books.users, Net()) == Total(s.books.users, Net())
  {
    RunWorth(s, steps);
    TotalZero(s.scripts, ScriptMoves());
    TotalZero(Run(s, steps).scripts, ScriptMoves());
  }

  // ----- Redemption codes.

  /** The codes spent are used up, and no code appears twice. */
  predicate SpentOnce(s: State) {
    && Distinct(s.spent)
    && forall k :: 0 <= k < |s.spent| ==> s.spent[k] < |s.books.codes| && s.books.codes[s.spent[k]].status == 0
  }

  /** A code keeps its name and quota, and once used its taker. */
  predicate CodesKept(codes: seq<Code>, more: seq<Code>) {
    && |codes| <= |more|
    && forall i :: 0 <= i < |codes| ==>
         && more[i].code == codes[i].code && more[i].quota == codes[i].quota
         && (codes[i].status != 1 ==> more[i] == codes[i])
  }

  lemma StepSpent(s: State, step: Step)
    requires SpentOnce(s) && Enabled(s, step)
    ensures var v := Apply(s, step);
            && SpentOnce(v) && s.spent <= v.spent && CodesKept(s.books.codes, v.books.codes)
            && (forall i :: 0 <= i < |s.books.codes| && s.books.codes[i].status == 1 ==>
                 (i in v.spent <==> v.books.codes[i].status != 1))
  {
    var v := Apply(s, step);
    if v.spent != s.spent {
      assert step.Act? && s.scripts[step.t][0].Flip?;
      assert v.spent[|s.spent|] == FirstCode(s.books.codes, s.scripts[step.t][0].code);
    }
  }

  lemma {:induction false} RunSpent(s: State, steps: seq<Step>)
    requires SpentOnce(s) && Possible(s, steps)
    ensures var v := Run(s, steps);
            && SpentOnce(v) && s.spent <= v.spent && CodesKept(s.books.codes, v.books.codes)
            && (forall i :: 0 <= i < |s.books.codes| && s.books.codes[i].status == 1 ==>
                 (i in v.spent <==> v.books.codes[i].status != 1))
    decreases steps
  {
    if steps == [] {
    } else {
      StepSpent(s, steps[0]);
      var v := Apply(s, steps[0]);
      RunSpent(v, steps[1..]);
      var w := Run(v, steps[1..]);
      forall i | 0 <= i < |s.books.codes| && s.books.codes[i].status == 1
        ensures i in w.spent <==> w.books.codes[i].status != 1
      {
        if v.books.codes[i].status != 1 {
          assert i in v.spent;
          var k :| 0 <= k < |v.spent| && v.spent[k] == i;
          assert w.spent[k] == i;
        }
      }
    }
  }

  /**
    Over any run no code is redeemed twice, the codes redeemed are exactly the
    unused ones that end up used, and a used code never changes again.
   */
  lemma EachCodeOnce(s: State, steps: seq<Step>)
    requires s.spent == [] && Possible(s, steps)
    ensures var v := Run(s, steps);
            && Distinct(v.spent)
            && CodesKept(s.books.codes, v.books.codes)
            && (forall k :: 0 <= k < |v.spent| ==>
                 v.spent[k] < |v.books.codes| && v.books.codes[v.spent[k]].status == 0)
            && (forall i :: 0 <= i < |s.books.codes| && s.books.codes[i].status == 1 ==>
                 (i in v.spent <==> v.books.codes[i].status != 1))
  {
    RunSpent(s, steps);
  }
}
