/**
  Payment orders.  The callback reads the order, rewrites it, checks the credit
  flag, credits and only then sets the flag, with no lock around the whole.
 */
module Payments {
  import opened Sums
  import opened Ledger
  import opened Turns

  /** How often the order was credited. */
  function Credits(s: State, id: string): int {
    Total(s.paid, Is(id))
  }

  predicate PaidFor(b: Books, id: string) {
    id in b.orders && b.orders[id].status == "paid"
  }

  /** A paid order is credited once and flagged; any other is neither. */
  predicate Settled(s: State, id: string) {
    Credits(s, id) == (if PaidFor(s.books, id) then 1 else 0) && (id in s.books.credited <==> PaidFor(s.books, id))
  }

  predicate Uncredited(s: State, id: string) {
    Credits(s, id) == 0 && id !in s.books.credited
  }

  // ----- The shapes of a script that works on an order.

  predicate Loading(script: seq<Action>, id: string) {
    script == [LoadOrder(id)]
  }

  predicate Saving(script: seq<Action>, id: string) {
    |script| == 2 && script[0].SaveOrder? && script[0].order.id == id && script[1] == CreditOrder(script[0].order)
  }

  predicate Checking(b: Books, script: seq<Action>, id: string) {
    |script| == 1 && script[0].CreditOrder? && script[0].order.id == id
    && id in b.orders && b.orders[id] == script[0].order
  }

  predicate Crediting(script: seq<Action>, id: string) {
    && 1 <= |script| <= 3 && script[|script| - 1] == MarkCredited(id)
    && forall i :: 0 <= i < |script| - 1 ==> script[i].Credit? || script[i].Enter?
  }

  /** The order is as it should be for a goroutine at that point of its script. */
  predicate Fits(s: State, script: seq<Action>, id: string) {
    || (Loading(script, id) && Settled(s, id))
    || (Saving(script, id) && Uncredited(s, id))
    || (Checking(s.books, script, id) && Uncredited(s, id))
    || (Crediting(script, id) && PaidFor(s.books, id) && Credits(s, id) == 1 && id !in s.books.credited)
  }

  /** Nobody works on the order and it is settled, or one goroutine does and it fits. */
  predicate Orderly(s: State, id: string) {
    && Keyed(s.books) && OneEach(s, AnOrder(id))
    && (forall t :: 0 <= t < |s.scripts| && Busy(s.scripts[t], AnOrder(id)) ==> Fits(s, s.scripts[t], id))
    && (Free(s, AnOrder(id)) ==> Settled(s, id))
  }

  /** The number is new whenever it is given to an order. */
  predicate NewNumber(s: State, step: Step, id: string) {
    step.Begin? && step.request.PlaceOrder? && step.request.order.id == id ==> id !in s.books.orders
  }

  predicate NewNumbers(s: State, steps: seq<Step>, id: string)
    requires Possible(s, steps)
    decreases steps
  {
    steps == [] || (NewNumber(s, steps[0], id) && NewNumbers(Apply(s, steps[0]), steps[1..], id))
  }

  // ----- One step.

  /** What the books and the history say about the order. */
  predicate SameOrder(s: State, v: State, id: string) {
    && (id in v.books.orders <==> id in s.books.orders)
    && (id in s.books.orders ==> v.books.orders[id] == s.books.orders[id])
    && (id in v.books.credited <==> id in s.books.credited)
    && Credits(v, id) == Credits(s, id)
  }

  /** Only an order's own requests touch it. */
  lemma OrderScript(r: Request, id: string)
    requires Busy(Script(r), AnOrder(id))
    ensures if r.PlaceOrder? then r.order.id == id && Saving(Script(r), id) else Loading(Script(r), id)
  {
    BusyScript(r, AnOrder(id));
  }

  lemma CreditsElsewhere(s: State, a: Action, id: string)
    requires !Handles(a, AnOrder(id))
    ensures Credits(Called(s, a), id) == Credits(s, id)
  {
    if a.CreditOrder? {
      TotalPush(s.paid, a.order.id, Is(id));
    } else {
      assert Noted(s, a).paid == s.paid;
    }
  }

  lemma BooksElsewhere(b: Books, a: Action, id: string)
    requires !Handles(a, AnOrder(id))
    ensures var after := Effect(b, a);
            && (id in after.orders <==> id in b.orders) && (id in b.orders ==> after.orders[id] == b.orders[id])
            && (id in after.credited <==> id in b.credited)
  {
  }

  lemma CallElsewhere(s: State, a: Action, id: string)
    requires !Handles(a, AnOrder(id))
    ensures SameOrder(s, Called(s, a), id)
  {
    BooksElsewhere(s.books, a, id);
    CreditsElsewhere(s, a, id);
  }

  lemma BeginOrderly(s: State, step: Step, id: string)
    requires step.Begin? && Orderly(s, id) && Enabled(s, step)
    requires Waits(s, step, AnOrder(id)) && NewNumber(s, step, id)
    ensures Orderly(Apply(s, step), id)
  {
    var v := Apply(s, step);
    StepOneEach(s, step, AnOrder(id));
    assert forall t :: 0 <= t < |s.scripts| && t != step.t ==> v.scripts[t] == s.scripts[t];
    if Busy(v.scripts[step.t], AnOrder(id)) {
      BusyScript(step.request, AnOrder(id));
      OrderScript(step.request, id);
      assert Free(s, AnOrder(id)) && Settled(s, id);
      assert Fits(v, v.scripts[step.t], id);
    } else if Free(v, AnOrder(id)) {
      assert !Busy(s.scripts[step.t], AnOrder(id));
      assert forall t :: 0 <= t < |s.scripts| && t != step.t ==> !Busy(v.scripts[t], AnOrder(id));
      assert Free(s, AnOrder(id));
    }
  }

  /** A step after which the order, and who works on it, are as before. */
  lemma StaysOrderly(s: State, v: State, t: nat, id: string)
    requires Orderly(s, id) && Keyed(v.books) && SameOrder(s, v, id) && OneEach(v, AnOrder(id))
    requires t < |s.scripts| == |v.scripts|
    requires forall x :: 0 <= x < |s.scripts| && x != t ==> v.scripts[x] == s.scripts[x]
    requires Busy(v.scripts[t], AnOrder(id)) == Busy(s.scripts[t], AnOrder(id))
    requires Busy(v.scripts[t], AnOrder(id)) ==> Fits(s, v.scripts[t], id)
    ensures Orderly(v, id)
  {
    forall x | 0 <= x < |s.scripts|
      ensures Busy(v.scripts[x], AnOrder(id)) == Busy(s.scripts[x], AnOrder(id))
      ensures Busy(v.scripts[x], AnOrder(id)) ==> Fits(v, v.scripts[x], id)
    {
    }
    if Free(v, AnOrder(id)) {
      assert Free(s, AnOrder(id));
    }
  }

  /** Only a goroutine that is crediting makes calls that do not touch its order. */
  lemma CreditingGoesOn(s: State, script: seq<Action>, id: string)
    requires script != [] && Fits(s, script, id) && !Handles(script[0], AnOrder(id))
    ensures Fits(s, script[1..], id) && More(s.books, script[0]) == []
  {
    assert Crediting(script, id) && Crediting(script[1..], id);
  }

  /** A call that has nothing to do with the order. */
  lemma ActElsewhere(s: State, step: Step, id: string)
    requires step.Act? && Orderly(s, id) && Enabled(s, step) && !Handles(s.scripts[step.t][0], AnOrder(id))
    ensures Orderly(Apply(s, step), id)
  {
    var v := Apply(s, step);
    var script := s.scripts[step.t];
    var a, rest := script[0], script[1..];
    CallElsewhere(s, a, id);
    StepKeyed(s, step);
    SameBusy(s, step.t, AnOrder(id));
    StepOneEach(s, step, AnOrder(id));
    if Busy(script, AnOrder(id)) {
      CreditingGoesOn(s, script, id);
      assert v.scripts[step.t] == rest;
    }
    assert SameOrder(s, v, id);
    StaysOrderly(s, v, step.t, id);
  }

  lemma LastCall(script: seq<Action>, id: string)
    requires Crediting(script, id) && script[0].MarkCredited?
    ensures |script| == 1
  {
  }

  /** After the next call of the goroutine that works on the order. */
  ghost predicate GoesOn(v: State, script: seq<Action>, id: string) {
    if Busy(script, AnOrder(id)) then Fits(v, script, id) else Settled(v, id)
  }

  lemma LoadFits(s: State, id: string)
    requires Keyed(s.books) && Settled(s, id)
    ensures GoesOn(Called(s, LoadOrder(id)), More(s.books, LoadOrder(id)), id)
  {
    var script := More(s.books, LoadOrder(id));
    if script != [] {
      assert Saving(script, id);
    }
  }

  lemma SaveFits(s: State, o: Order)
    requires Uncredited(s, o.id)
    ensures GoesOn(Called(s, SaveOrder(o)), [CreditOrder(o)], o.id)
  {
    assert Checking(Called(s, SaveOrder(o)).books, [CreditOrder(o)], o.id);
    assert Handles([CreditOrder(o)][0], AnOrder(o.id));
  }

  lemma CreditFits(s: State, o: Order)
    requires Uncredited(s, o.id) && o.id in s.books.orders && s.books.orders[o.id] == o
    ensures GoesOn(Called(s, CreditOrder(o)), More(s.books, CreditOrder(o)), o.id)
  {
    var v, script := Called(s, CreditOrder(o)), More(s.books, CreditOrder(o));
    if o.status == "paid" {
      TotalPush(s.paid, o.id, Is(o.id));
      CreditingNow(s, o);
      assert Handles(script[2], AnOrder(o.id));
    } else {
      assert v == s && script == [];
    }
  }

  lemma CreditingNow(s: State, o: Order)
    requires o.status == "paid" && o.id !in s.books.credited
    ensures Called(s, CreditOrder(o)) == s.(paid := s.paid + [o.id])
    ensures Crediting(More(s.books, CreditOrder(o)), o.id) && |More(s.books, CreditOrder(o))| == 3
  {
  }

  lemma MarkFits(s: State, id: string)
    requires PaidFor(s.books, id) && Credits(s, id) == 1
    ensures GoesOn(Called(s, MarkCredited(id)), [], id)
  {
  }

  lemma HandlerFits(s: State, script: seq<Action>, id: string)
    requires Keyed(s.books) && script != [] && Handles(script[0], AnOrder(id)) && Fits(s, script, id)
    ensures GoesOn(Called(s, script[0]), More(s.books, script[0]) + script[1..], id)
  {
    var a, rest := script[0], script[1..];
    assert More(s.books, a) + [] == More(s.books, a);
    match a
    case LoadOrder(_) =>
      assert rest == [];
      LoadFits(s, id);
    case SaveOrder(o) =>
      assert rest == [CreditOrder(o)] && More(s.books, a) + rest == rest;
      SaveFits(s, o);
    case CreditOrder(o) =>
      assert rest == [];
      CreditFits(s, o);
    case MarkCredited(_) =>
      LastCall(script, id);
      assert rest == [];
      MarkFits(s, id);
  }

  /** What holds of the order does not depend on the scripts. */
  lemma SameView(v: State, w: State, script: seq<Action>, id: string)
    requires w.books == v.books && w.paid == v.paid
    ensures GoesOn(v, script, id) == GoesOn(w, script, id)
  {
  }

  lemma ActHere(s: State, step: Step, id: string)
    requires step.Act? && Orderly(s, id) && Enabled(s, step) && Handles(s.scripts[step.t][0], AnOrder(id))
    ensures Orderly(Apply(s, step), id)
  {
    var v := Apply(s, step);
    var script := s.scripts[step.t];
    assert Busy(script, AnOrder(id));
    HandlerFits(s, script, id);
    StepKeyed(s, step);
    StepOneEach(s, step, AnOrder(id));
    SameView(Called(s, script[0]), v, v.scripts[step.t], id);
    forall t | 0 <= t < |s.scripts| && t != step.t
      ensures !Busy(v.scripts[t], AnOrder(id))
    {
      assert v.scripts[t] == s.scripts[t];
    }
  }

  lemma {:induction false} RunOrderly(s: State, steps: seq<Step>, id: string)
    requires Orderly(s, id) && Possible(s, steps) && Serial(s, steps, AnOrder(id)) && NewNumbers(s, steps, id)
    ensures Orderly(Run(s, steps), id)
    decreases steps
  {
    if steps == [] {
    } else {
      if steps[0].Begin? {
        BeginOrderly(s, steps[0], id);
      } else if Handles(s.scripts[steps[0].t][0], AnOrder(id)) {
        ActHere(s, steps[0], id);
      } else {
        ActElsewhere(s, steps[0], id);
      }
      RunOrderly(Apply(s, steps[0]), steps[1..], id);
    }
  }

  /**
    When the requests for one order do not overlap, an order is credited at most
    once at any moment, and once all is quiet exactly the paid orders are.
   */
  lemma PaidOnce(s: State, steps: seq<Step>, id: string)
    requires Quiet(s) && Keyed(s.books) && Settled(s, id)
    requires Possible(s, steps) && Serial(s, steps, AnOrder(id)) && NewNumbers(s, steps, id)
    ensures Credits(Run(s, steps), id) <= 1
    ensures Quiet(Run(s, steps)) ==> (Credits(Run(s, steps), id) == 1 <==> PaidFor(Run(s, steps).books, id))
  {
    RunOrderly(s, steps, id);
    var v := Run(s, steps);
    if t :| 0 <= t < |v.scripts| && Busy(v.scripts[t], AnOrder(id)) {
      assert Fits(v, v.scripts[t], id);
    } else {
      assert Settled(v, id);
    }
  }

  // ----- Overlapping callbacks credit an order twice.

  /** Both goroutines are past their check. */
  lemma BothLoaded(s: State, t: nat, u: nat, o: Order) returns (steps: seq<Step>)
    requires t < |s.scripts| && u < |s.scripts| && t != u
    requires s.scripts[t] == [SaveOrder(o), CreditOrder(o)] && s.scripts[u] == s.scripts[t]
    requires o.status == "paid" && o.id !in s.books.credited
    ensures Possible(s, steps) && Credits(Run(s, steps), o.id) == Credits(s, o.id) + 2
  {
    var a := Apply(s, Act(t));
    assert a.scripts[t] == [CreditOrder(o)];
    var b := Apply(a, Act(u));
    assert b.scripts[u] == [CreditOrder(o)];
    var c := Apply(b, Act(t));
    var d := Apply(c, Act(u));
    assert c.paid == s.paid + [o.id];
    assert d.paid == c.paid + [o.id];
    TotalPush(s.paid, o.id, Is(o.id));
    TotalPush(c.paid, o.id, Is(o.id));
    Prepend(c, Act(u), []);
    Prepend(b, Act(t), [Act(u)] + []);
    Prepend(a, Act(u), [Act(t)] + ([Act(u)] + []));
    Prepend(s, Act(t), [Act(u)] + ([Act(t)] + ([Act(u)] + [])));
    steps := [Act(t)] + ([Act(u)] + ([Act(t)] + ([Act(u)] + [])));
  }

  /**
    Without that waiting, every pending order can be credited twice: from any
    quiet state some run of two overlapping callbacks does it.
   */
  lemma PaidTwice(s: State, t: nat, u: nat, id: string) returns (steps: seq<Step>)
    requires Quiet(s) && t < |s.scripts| && u < |s.scripts| && t != u
    requires id != "" && id in s.books.orders && s.books.orders[id].id == id && s.books.orders[id].status == "pending"
    requires id !in s.books.credited
    ensures Possible(s, steps) && Credits(Run(s, steps), id) == Credits(s, id) + 2
  {
    var o := s.books.orders[id].(status := "paid");
    var a := Apply(s, Begin(t, Callback(id)));
    var b := Apply(a, Begin(u, Callback(id)));
    var c := Apply(b, Act(t));
    assert c.scripts[t] == [SaveOrder(o), CreditOrder(o)];
    var d := Apply(c, Act(u));
    assert d.scripts[u] == [SaveOrder(o), CreditOrder(o)];
    var rest := BothLoaded(d, t, u, o);
    Prepend(c, Act(u), rest);
    Prepend(b, Act(t), [Act(u)] + rest);
    Prepend(a, Begin(u, Callback(id)), [Act(t)] + ([Act(u)] + rest));
    Prepend(s, Begin(t, Callback(id)), [Begin(u, Callback(id))] + ([Act(t)] + ([Act(u)] + rest)));
    steps := [Begin(t, Callback(id))] + ([Begin(u, Callback(id))] + ([Act(t)] + ([Act(u)] + rest)));
  }
}
