/**
  Who is at work on what: the things that handlers read first and write later,
  and when two goroutines are at work on the same one.
 */
module Turns {
  import opened Ledger

  /** An order, a user's check-ins, an invitation, or who may become the first account. */
  datatype Thing = AnOrder(id: string) | CheckinsOf(user: string) | AnInvite(code: string) | FirstAccount

  predicate Handles(a: Action, x: Thing) {
    match x
    case AnOrder(id) =>
      || ((a.LoadOrder? || a.MarkCredited?) && a.id == id)
      || ((a.SaveOrder? || a.CreditOrder?) && a.order.id == id)
    case CheckinsOf(user) => (a.CheckDay? || a.MarkDay?) && a.user == user
    case AnInvite(code) => (a.CountUsers? || a.Enrol? || a.LoadInvite? || a.SaveInvite?) && a.code == code
    case FirstAccount => a.CountUsers? || a.Enrol?
  }

  predicate Concerns(r: Request, x: Thing) {
    match x
    case AnOrder(id) => (r.PlaceOrder? && r.order.id == id) || (r.Callback? && r.id == id)
    case CheckinsOf(user) => r.Checkin? && r.user == user
    case AnInvite(code) => r.Register? && r.code == code
    case FirstAccount => r.Register?
  }

  predicate Busy(script: seq<Action>, x: Thing) {
    exists i :: 0 <= i < |script| && Handles(script[i], x)
  }

  /** Nobody is at work on it. */
  predicate Free(s: State, x: Thing) {
    forall t :: 0 <= t < |s.scripts| ==> !Busy(s.scripts[t], x)
  }

  /** At most one goroutine is at work on it. */
  predicate OneEach(s: State, x: Thing) {
    forall t, u :: 0 <= t < u < |s.scripts| ==> !(Busy(s.scripts[t], x) && Busy(s.scripts[u], x))
  }

  /** Orders are stored under their own number. */
  predicate Keyed(b: Books) {
    forall id :: id in b.orders ==> b.orders[id].id == id
  }

  /** A request waits until nobody is at work on what it concerns. */
  predicate Waits(s: State, step: Step, x: Thing) {
    step.Begin? && Concerns(step.request, x) ==> Free(s, x)
  }

  predicate Serial(s: State, steps: seq<Step>, x: Thing)
    requires Possible(s, steps)
    decreases steps
  {
    steps == [] || (Waits(s, steps[0], x) && Serial(Apply(s, steps[0]), steps[1..], x))
  }

  lemma {:induction false} SerialJoin(s: State, a: seq<Step>, b: seq<Step>, x: Thing)
    requires Possible(s, a) && Possible(Run(s, a), b) && Possible(s, a + b)
    requires Serial(s, a, x) && Serial(Run(s, a), b, x)
    ensures Serial(s, a + b, x)
    decreases a
  {
    if a == [] {
      assert a + b == b;
    } else {
      assert (a + b)[1..] == a[1..] + b;
      SerialJoin(Apply(s, a[0]), a[1..], b, x);
    }
  }

  /** Steps of goroutines already at work wait for nobody. */
  lemma {:induction false} ActsAreSerial(s: State, steps: seq<Step>, x: Thing)
    requires Possible(s, steps) && forall i :: 0 <= i < |steps| ==> steps[i].Act?
    ensures Serial(s, steps, x)
    decreases steps
  {
    if steps == [] {
    } else {
      ActsAreSerial(Apply(s, steps[0]), steps[1..], x);
    }
  }

  // ----- Who is at work after a step.

  predicate Plain(script: seq<Action>) {
    forall i :: 0 <= i < |script| ==> script[i].Credit? || script[i].Enter?
  }

  lemma {:induction false} PlainGrants(grants: seq<Grant>)
    ensures Plain(Grants(grants))
  {
    if grants == [] {
    } else {
      PlainGrants(grants[..|grants| - 1]);
    }
  }

  lemma {:induction false} PlainRecharges(names: seq<string>, amount: int)
    ensures Plain(Recharges(names, amount))
  {
    if names == [] {
    } else {
      PlainRecharges(names[..|names| - 1], amount);
    }
  }

  lemma BusyScript(r: Request, x: Thing)
    requires Busy(Script(r), x)
    ensures Concerns(r, x)
  {
    match r
    case DailyGrant(grants) => PlainGrants(grants);
    case Recharge(names, amount) => PlainRecharges(names, amount);
    case _ =>
  }

  lemma MoreElsewhere(b: Books, a: Action, x: Thing)
    requires (x.AnOrder? ==> Keyed(b)) && !Handles(a, x)
    ensures !Busy(More(b, a), x)
  {
    if a.LoadInvite? && Open(b, a.code) {
      assert Plain(Invited(a.name, UsedOnce(b.invites[a.code])));
    }
  }

  lemma StillBusy(script: seq<Action>, more: seq<Action>, x: Thing)
    requires script != [] && !Handles(script[0], x) && !Busy(more, x)
    ensures Busy(more + script[1..], x) == Busy(script, x)
  {
    var next := more + script[1..];
    if Busy(script, x) {
      var i :| 0 <= i < |script| && Handles(script[i], x);
      assert next[|more| + i - 1] == script[i];
    }
    if Busy(next, x) {
      var i :| 0 <= i < |next| && Handles(next[i], x);
      assert forall j :: 0 <= j < |more| ==> !Handles(more[j], x);
      assert next[i] == script[1..][i - |more|] == script[i - |more| + 1];
    }
  }

  lemma SameBusy(s: State, t: nat, x: Thing)
    requires (x.AnOrder? ==> Keyed(s.books)) && Enabled(s, Act(t)) && !Handles(s.scripts[t][0], x)
    ensures Busy(Apply(s, Act(t)).scripts[t], x) == Busy(s.scripts[t], x)
  {
    MoreElsewhere(s.books, s.scripts[t][0], x);
    StillBusy(s.scripts[t], More(s.books, s.scripts[t][0]), x);
  }

  lemma StepKeyed(s: State, step: Step)
    requires Keyed(s.books) && Enabled(s, step)
    ensures Keyed(Apply(s, step).books)
  {
  }

  /** Who waits finds at most one goroutine at work. */
  lemma StepOneEach(s: State, step: Step, x: Thing)
    requires (x.AnOrder? ==> Keyed(s.books)) && OneEach(s, x) && Enabled(s, step) && Waits(s, step, x)
    ensures OneEach(Apply(s, step), x)
  {
    var v := Apply(s, step);
    assert forall t :: 0 <= t < |s.scripts| && t != step.t ==> v.scripts[t] == s.scripts[t];
    if step.Begin? {
      if Busy(v.scripts[step.t], x) {
        BusyScript(step.request, x);
      }
    } else if Handles(s.scripts[step.t][0], x) {
      assert Busy(s.scripts[step.t], x);
    } else {
      SameBusy(s, step.t, x);
    }
  }
}
