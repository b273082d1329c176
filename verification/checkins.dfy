/**
  Daily check-ins.  The handler reads the day stored for the user, credits, and
  only then stores the new day, with no lock around the whole.
 */
module CheckIns {
  import opened Bytes
  import opened Sums
  import opened Ledger
  import opened Turns

  /** How often the day was granted to the user. */
  function TimesGranted(s: State, user: string, day: string): int {
    Total(s.days, Is(DayGrant(user, day)))
  }

  predicate Stored(b: Books, user: string, day: string) {
    user in b.checkins && b.checkins[user] == day
  }

  ghost predicate AtMostOnce(s: State, user: string) {
    forall day :: TimesGranted(s, user, day) <= 1
  }

  // ----- The shapes of a script that works on a check-in.

  predicate Asking(script: seq<Action>, user: string) {
    |script| == 1 && script[0].CheckDay? && script[0].user == user
  }

  predicate Crediting(script: seq<Action>, user: string) {
    && 1 <= |script| <= 3 && script[|script| - 1].MarkDay? && script[|script| - 1].user == user
    && Plain(script[..|script| - 1])
  }

  /** The day is the stored one, or was never granted. */
  predicate Due(s: State, user: string, day: string) {
    Stored(s.books, user, day) || TimesGranted(s, user, day) == 0
  }

  predicate Fits(s: State, script: seq<Action>, user: string) {
    (Asking(script, user) && Due(s, user, script[0].day)) || Crediting(script, user)
  }

  ghost predicate Orderly(s: State, user: string) {
    && AtMostOnce(s, user) && OneEach(s, CheckinsOf(user))
    && forall t :: 0 <= t < |s.scripts| && Busy(s.scripts[t], CheckinsOf(user)) ==> Fits(s, s.scripts[t], user)
  }

  predicate DueDay(s: State, step: Step, user: string) {
    step.Begin? && step.request.Checkin? && step.request.user == user ==> Due(s, user, step.request.day)
  }

  predicate DueDays(s: State, steps: seq<Step>, user: string)
    requires Possible(s, steps)
    decreases steps
  {
    steps == [] || (DueDay(s, steps[0], user) && DueDays(Apply(s, steps[0]), steps[1..], user))
  }

  // ----- One step.

  /** What the books and the history say about the user's check-ins. */
  ghost predicate SameDays(s: State, v: State, user: string) {
    && (user in v.books.checkins <==> user in s.books.checkins)
    && (user in s.books.checkins ==> v.books.checkins[user] == s.books.checkins[user])
    && forall day {:trigger TimesGranted(v, user, day)} :: TimesGranted(v, user, day) == TimesGranted(s, user, day)
  }

  lemma CheckinScript(r: Request, user: string)
    requires Busy(Script(r), CheckinsOf(user))
    ensures r.Checkin? && r.user == user && Script(r) == [CheckDay(user, r.day, r.quota)]
  {
    BusyScript(r, CheckinsOf(user));
  }

  lemma StoredElsewhere(b: Books, a: Action, user: string)
    requires !Handles(a, CheckinsOf(user))
    ensures var after := Effect(b, a).checkins;
            (user in after <==> user in b.checkins) && (user in b.checkins ==> after[user] == b.checkins[user])
  {
  }

  lemma GrantedElsewhere(s: State, a: Action, user: string, day: string)
    requires !Handles(a, CheckinsOf(user))
    ensures TimesGranted(Called(s, a), user, day) == TimesGranted(s, user, day)
  {
    OneDayMore(s, a);
    if a.CheckDay? {
      AnotherGrant(s.days, DayGrant(a.user, a.day), DayGrant(user, day));
    }
  }

  lemma OneDayMore(s: State, a: Action)
    ensures Called(s, a).days == s.days
            || (a.CheckDay? && Called(s, a).days == s.days + [DayGrant(a.user, a.day)])
  {
  }

  lemma AnotherGrant(days: seq<DayGrant>, other: DayGrant, own: DayGrant)
    requires other.user != own.user
    ensures Total(days + [other], Is(own)) == Total(days, Is(own))
  {
    TotalPush(days, other, Is(own));
  }

  lemma ActElsewhereKeeps(s: State, t: nat, user: string)
    requires Enabled(s, Act(t)) && !Handles(s.scripts[t][0], CheckinsOf(user))
    ensures SameDays(s, Apply(s, Act(t)), user)
  {
    var a, v := s.scripts[t][0], Apply(s, Act(t));
    StoredElsewhere(s.books, a, user);
    forall day
      ensures TimesGranted(v, user, day) == TimesGranted(s, user, day)
    {
      GrantedElsewhere(s, a, user, day);
      assert v.days == Called(s, a).days;
    }
  }

  lemma BeginOrderly(s: State, step: Step, user: string)
    requires step.Begin? && Orderly(s, user) && Enabled(s, step)
    requires Waits(s, step, CheckinsOf(user)) && DueDay(s, step, user)
    ensures Orderly(Apply(s, step), user)
  {
    var v := Apply(s, step);
    StepOneEach(s, step, CheckinsOf(user));
    assert forall day :: TimesGranted(v, user, day) == TimesGranted(s, user, day);
    assert forall t :: 0 <= t < |s.scripts| && t != step.t ==> v.scripts[t] == s.scripts[t];
    if Busy(v.scripts[step.t], CheckinsOf(user)) {
      CheckinScript(step.request, user);
    }
  }

  lemma CreditingGoesOn(s: State, t: nat, user: string)
    requires Enabled(s, Act(t)) && Crediting(s.scripts[t], user) && !Handles(s.scripts[t][0], CheckinsOf(user))
    ensures var was, now := s.scripts[t], Apply(s, Act(t)).scripts[t];
            Crediting(now, user) && now == was[1..]
  {
    var script := s.scripts[t];
    var n := |script| - 1;
    assert n > 0;
    assert script[0] == script[..n][0];
    assert script[1..][..n - 1] == script[..n][1..];
    assert More(s.books, script[0]) + script[1..] == script[1..];
  }

  lemma ActElsewhere(s: State, t: nat, user: string)
    requires Orderly(s, user) && Enabled(s, Act(t)) && !Handles(s.scripts[t][0], CheckinsOf(user))
    ensures Orderly(Apply(s, Act(t)), user)
  {
    var v := Apply(s, Act(t));
    ActElsewhereKeeps(s, t, user);
    SameBusy(s, t, CheckinsOf(user));
    StepOneEach(s, Act(t), CheckinsOf(user));
    forall day
      ensures TimesGranted(v, user, day) <= 1
    {
      assert TimesGranted(s, user, day) <= 1;
    }
    forall x | 0 <= x < |s.scripts| && Busy(v.scripts[x], CheckinsOf(user))
      ensures Fits(v, v.scripts[x], user)
    {
      if x == t {
        CreditingGoesOn(s, t, user);
      } else if Asking(s.scripts[x], user) {
        assert TimesGranted(v, user, s.scripts[x][0].day) == TimesGranted(s, user, s.scripts[x][0].day);
      }
    }
  }

  /** The goroutine's own read or mark. */
  lemma ActHere(s: State, t: nat, user: string)
    requires Orderly(s, user) && Enabled(s, Act(t)) && Handles(s.scripts[t][0], CheckinsOf(user))
    ensures Orderly(Apply(s, Act(t)), user)
  {
    var v := Apply(s, Act(t));
    assert Busy(s.scripts[t], CheckinsOf(user)) && Fits(s, s.scripts[t], user);
    StepOneEach(s, Act(t), CheckinsOf(user));
    forall day
      ensures TimesGranted(v, user, day) <= 1
    {
      OwnGrants(s, t, user, day);
    }
    OwnScript(s, t, user);
    forall x | 0 <= x < |s.scripts| && x != t
      ensures !Busy(v.scripts[x], CheckinsOf(user))
    {
      assert v.scripts[x] == s.scripts[x];
    }
  }

  lemma OwnGrants(s: State, t: nat, user: string, day: string)
    requires AtMostOnce(s, user) && Enabled(s, Act(t)) && Handles(s.scripts[t][0], CheckinsOf(user))
    requires Fits(s, s.scripts[t], user)
    ensures TimesGranted(Apply(s, Act(t)), user, day) <= 1
  {
    var a := s.scripts[t][0];
    assert TimesGranted(s, user, day) <= 1;
    if a.CheckDay? {
      TotalPush(s.days, DayGrant(user, a.day), Is(DayGrant(user, day)));
    }
  }

  lemma OwnScript(s: State, t: nat, user: string)
    requires Enabled(s, Act(t)) && Handles(s.scripts[t][0], CheckinsOf(user)) && Fits(s, s.scripts[t], user)
    ensures var was, now := s.scripts[t], Apply(s, Act(t)).scripts[t];
            if was[0].CheckDay? && !Stored(s.books, user, was[0].day)
            then Crediting(now, user) && now[|now| - 1].day == was[0].day
            else now == []
  {
    var a := s.scripts[t][0];
    assert |s.scripts[t]| == 1;
    assert More(s.books, a) + [] == More(s.books, a);
  }

  lemma StepOrderly(s: State, step: Step, user: string)
    requires Orderly(s, user) && Enabled(s, step) && Waits(s, step, CheckinsOf(user)) && DueDay(s, step, user)
    ensures Orderly(Apply(s, step), user)
  {
    if step.Begin? {
      BeginOrderly(s, step, user);
    } else if Handles(s.scripts[step.t][0], CheckinsOf(user)) {
      ActHere(s, step.t, user);
    } else {
      ActElsewhere(s, step.t, user);
    }
  }

  lemma {:induction false} RunOrderly(s: State, steps: seq<Step>, user: string)
    requires Orderly(s, user) && Possible(s, steps) && Serial(s, steps, CheckinsOf(user)) && DueDays(s, steps, user)
    ensures Orderly(Run(s, steps), user)
    decreases steps
  {
    if steps == [] {
    } else {
      StepOrderly(s, steps[0], user);
      RunOrderly(Apply(s, steps[0]), steps[1..], user);
    }
  }

  /**
    When a user's check-ins wait for each other and each asks for the stored day
    or one never granted, no day is granted twice, whatever else goes on.
   */
  lemma NoDayTwice(s: State, steps: seq<Step>, user: string, day: string)
    requires Quiet(s) && AtMostOnce(s, user)
    requires Possible(s, steps) && Serial(s, steps, CheckinsOf(user)) && DueDays(s, steps, user)
    ensures TimesGranted(Run(s, steps), user, day) <= 1
  {
    RunOrderly(s, steps, user);
  }

  // ----- A clock that is not set back.

  /** The day is not before the stored one. */
  predicate Forward(b: Books, user: string, day: string) {
    user in b.checkins ==> day == b.checkins[user] || After(day, b.checkins[user])
  }

  predicate ForwardDay(s: State, step: Step, user: string) {
    step.Begin? && step.request.Checkin? && step.request.user == user ==> Forward(s.books, user, step.request.day)
  }

  predicate ForwardDays(s: State, steps: seq<Step>, user: string)
    requires Possible(s, steps)
    decreases steps
  {
    steps == [] || (ForwardDay(s, steps[0], user) && ForwardDays(Apply(s, steps[0]), steps[1..], user))
  }

  /** No granted day is after this one. */
  ghost predicate UpTo(s: State, user: string, day: string) {
    forall d :: TimesGranted(s, user, d) > 0 ==> !After(d, day)
  }

  /** No granted day is after the stored one. */
  ghost predicate UpToStored(s: State, user: string) {
    forall d :: TimesGranted(s, user, d) > 0 ==> user in s.books.checkins && !After(d, s.books.checkins[user])
  }

  ghost predicate Follows(s: State, script: seq<Action>, user: string) {
    if Asking(script, user) then UpToStored(s, user) && Forward(s.books, user, script[0].day)
    else Crediting(script, user) && UpTo(s, user, script[|script| - 1].day)
  }

  ghost predicate Chronological(s: State, user: string) {
    && (Free(s, CheckinsOf(user)) ==> UpToStored(s, user))
    && forall t :: 0 <= t < |s.scripts| && Busy(s.scripts[t], CheckinsOf(user)) ==> Follows(s, s.scripts[t], user)
  }

  lemma ForwardIsDue(s: State, user: string, day: string)
    requires UpToStored(s, user) && Forward(s.books, user, day)
    ensures Due(s, user, day)
  {
    CountNotNegative(s.days, DayGrant(user, day));
    if user in s.books.checkins {
      AfterTotal(day, s.books.checkins[user]);
    }
  }

  lemma BeginChronological(s: State, step: Step, user: string)
    requires step.Begin? && Chronological(s, user) && Enabled(s, step)
    requires Waits(s, step, CheckinsOf(user)) && ForwardDay(s, step, user)
    ensures Chronological(Apply(s, step), user)
  {
    var v := Apply(s, step);
    assert forall day :: TimesGranted(v, user, day) == TimesGranted(s, user, day);
    assert forall t :: 0 <= t < |s.scripts| && t != step.t ==> v.scripts[t] == s.scripts[t];
    assert !Busy(s.scripts[step.t], CheckinsOf(user));
    if Busy(v.scripts[step.t], CheckinsOf(user)) {
      CheckinScript(step.request, user);
    } else if Free(v, CheckinsOf(user)) {
      FreeBefore(s, v, step.t, user);
    }
  }

  lemma FreeBefore(s: State, v: State, t: nat, user: string)
    requires t < |s.scripts| == |v.scripts| && Free(v, CheckinsOf(user)) && !Busy(s.scripts[t], CheckinsOf(user))
    requires forall x :: 0 <= x < |s.scripts| && x != t ==> v.scripts[x] == s.scripts[x]
    ensures Free(s, CheckinsOf(user))
  {
    forall x | 0 <= x < |s.scripts|
      ensures !Busy(s.scripts[x], CheckinsOf(user))
    {
      assert !Busy(v.scripts[x], CheckinsOf(user));
    }
  }

  lemma FollowsStill(s: State, v: State, script: seq<Action>, user: string)
    requires SameDays(s, v, user) && Follows(s, script, user)
    ensures Follows(v, script, user)
  {
    assert forall day :: TimesGranted(v, user, day) == TimesGranted(s, user, day);
  }

  lemma ElsewhereChronological(s: State, t: nat, user: string)
    requires Chronological(s, user) && Enabled(s, Act(t)) && !Handles(s.scripts[t][0], CheckinsOf(user))
    ensures Chronological(Apply(s, Act(t)), user)
  {
    var v := Apply(s, Act(t));
    ActElsewhereKeeps(s, t, user);
    SameBusy(s, t, CheckinsOf(user));
    if Free(v, CheckinsOf(user)) {
      FreeBefore(s, v, t, user);
      StillUpToStored(s, v, user);
    }
    forall x | 0 <= x < |s.scripts| && Busy(v.scripts[x], CheckinsOf(user))
      ensures Follows(v, v.scripts[x], user)
    {
      FollowsStill(s, v, s.scripts[x], user);
      if x == t {
        FollowsOn(s, v, t, user);
      }
    }
  }

  lemma AskingHandles(script: seq<Action>, user: string)
    ensures Asking(script, user) ==> Handles(script[0], CheckinsOf(user))
  {
  }

  lemma FollowsOn(s: State, v: State, t: nat, user: string)
    requires Enabled(s, Act(t)) && v == Apply(s, Act(t)) && !Handles(s.scripts[t][0], CheckinsOf(user))
    requires Follows(v, s.scripts[t], user)
    ensures Follows(v, v.scripts[t], user)
  {
    var was := s.scripts[t];
    AskingHandles(was, user);
    CreditingGoesOn(s, t, user);
    assert was[1..][|was| - 2] == was[|was| - 1];
  }

  lemma StillUpToStored(s: State, v: State, user: string)
    requires SameDays(s, v, user) && UpToStored(s, user)
    ensures UpToStored(v, user)
  {
    assert forall day :: TimesGranted(v, user, day) == TimesGranted(s, user, day);
  }

  lemma HereChronological(s: State, t: nat, user: string)
    requires Chronological(s, user) && OneEach(s, CheckinsOf(user))
    requires Enabled(s, Act(t)) && Handles(s.scripts[t][0], CheckinsOf(user))
    ensures Chronological(Apply(s, Act(t)), user)
  {
    var v, script := Apply(s, Act(t)), s.scripts[t];
    assert Busy(script, CheckinsOf(user)) && Follows(s, script, user);
    forall x | 0 <= x < |s.scripts| && x != t
      ensures !Busy(v.scripts[x], CheckinsOf(user))
    {
      assert v.scripts[x] == s.scripts[x];
    }
    if script[0].MarkDay? {
      MarkChronological(s, t, user);
    } else {
      AskChronological(s, t, user);
    }
  }

  lemma MarkChronological(s: State, t: nat, user: string)
    requires Enabled(s, Act(t)) && s.scripts[t][0].MarkDay? && s.scripts[t][0].user == user
    requires Follows(s, s.scripts[t], user)
    ensures UpToStored(Apply(s, Act(t)), user) && Apply(s, Act(t)).scripts[t] == []
  {
    var v := Apply(s, Act(t));
    assert |s.scripts[t]| == 1 && v.days == s.days;
    assert forall d :: TimesGranted(v, user, d) == TimesGranted(s, user, d);
  }

  lemma AskChronological(s: State, t: nat, user: string)
    requires Enabled(s, Act(t)) && s.scripts[t][0].CheckDay? && s.scripts[t][0].user == user
    requires Follows(s, s.scripts[t], user)
    ensures var v := Apply(s, Act(t));
            if v.scripts[t] == [] then UpToStored(v, user) else Follows(v, v.scripts[t], user)
  {
    var v, day := Apply(s, Act(t)), s.scripts[t][0].day;
    ForwardIsDue(s, user, day);
    OwnScript(s, t, user);
    if Stored(s.books, user, day) {
      assert forall d :: TimesGranted(v, user, d) == TimesGranted(s, user, d);
    } else {
      forall d | TimesGranted(v, user, d) > 0
        ensures !After(d, day)
      {
        TotalPush(s.days, DayGrant(user, day), Is(DayGrant(user, d)));
        AfterTotal(day, day);
        if d != day {
          assert TimesGranted(s, user, d) > 0;
          AfterTotal(day, s.books.checkins[user]);
          NotAfterChain(d, s.books.checkins[user], day);
        }
      }
    }
  }

  lemma {:induction false} ForwardDaysAreDue(s: State, steps: seq<Step>, user: string)
    requires Orderly(s, user) && Chronological(s, user)
    requires Possible(s, steps) && Serial(s, steps, CheckinsOf(user)) && ForwardDays(s, steps, user)
    ensures DueDays(s, steps, user)
    decreases steps
  {
    if steps == [] {
    } else {
      var step := steps[0];
      if step.Begin? && step.request.Checkin? && step.request.user == user {
        ForwardIsDue(s, user, step.request.day);
      }
      StepOrderly(s, step, user);
      if step.Begin? {
        BeginChronological(s, step, user);
      } else if Handles(s.scripts[step.t][0], CheckinsOf(user)) {
        HereChronological(s, step.t, user);
      } else {
        ElsewhereChronological(s, step.t, user);
      }
      ForwardDaysAreDue(Apply(s, step), steps[1..], user);
    }
  }

  /**
    When a user's check-ins wait for each other and no request comes with a day
    before the stored one, no day is granted twice, whatever else goes on.
   */
  lemma OnceADay(s: State, steps: seq<Step>, user: string, day: string)
    requires Quiet(s) && AtMostOnce(s, user) && UpToStored(s, user)
    requires Possible(s, steps) && Serial(s, steps, CheckinsOf(user)) && ForwardDays(s, steps, user)
    ensures TimesGranted(Run(s, steps), user, day) <= 1
  {
    ForwardDaysAreDue(s, steps, user);
    NoDayTwice(s, steps, user, day);
  }

  // ----- A clock that is set back.

  lemma ActsPlainly(s: State, t: nat, rest: seq<Action>)
    requires t < |s.scripts| && s.scripts[t] != [] && s.scripts[t][1..] == rest
    requires s.scripts[t][0].Credit? || s.scripts[t][0].Enter?
    ensures var v := Apply(s, Act(t));
            && v.scripts == s.scripts[t := rest] && v.days == s.days && v.books.checkins == s.books.checkins
  {
    assert [] + rest == rest;
  }

  lemma Marks(s: State, t: nat, user: string, day: string)
    requires t < |s.scripts| && s.scripts[t] == [MarkDay(user, day)]
    ensures var v := Apply(s, Act(t));
            && v.scripts == s.scripts[t := []] && v.days == s.days
            && v.books.checkins == s.books.checkins[user := day]
  {
    assert More(s.books, MarkDay(user, day)) + s.scripts[t][1..] == [];
  }

  lemma GrantsAndMarks(s: State, t: nat, user: string, day: string, quota: int)
    requires t < |s.scripts|
    requires s.scripts[t] == [Credit(user, quota), Enter(Bill(user, "checkin", quota)), MarkDay(user, day)]
    ensures var steps := [Act(t)] + ([Act(t)] + ([Act(t)] + []));
            && Possible(s, steps) && Run(s, steps).scripts == s.scripts[t := []] && Run(s, steps).days == s.days
            && Run(s, steps).books.checkins == s.books.checkins[user := day]
  {
    var bill := Enter(Bill(user, "checkin", quota));
    var c := Apply(s, Act(t));
    ActsPlainly(s, t, [bill, MarkDay(user, day)]);
    var d := Apply(c, Act(t));
    ActsPlainly(c, t, [MarkDay(user, day)]);
    assert s.scripts[t := [bill, MarkDay(user, day)]][t := [MarkDay(user, day)]]
           == s.scripts[t := [MarkDay(user, day)]];
    Marks(d, t, user, day);
    assert s.scripts[t := [MarkDay(user, day)]][t := []] == s.scripts[t := []];
    Prepend(d, Act(t), []);
    Prepend(c, Act(t), [Act(t)] + []);
    Prepend(s, Act(t), [Act(t)] + ([Act(t)] + []));
  }

  /** One goroutine serves a check-in for a day that is not stored, from begin to end. */
  lemma Served(s: State, t: nat, user: string, day: string, quota: int) returns (steps: seq<Step>)
    requires Quiet(s) && t < |s.scripts| && !Stored(s.books, user, day)
    ensures Possible(s, steps) && Serial(s, steps, CheckinsOf(user))
    ensures forall i :: 0 <= i < |steps| ==> steps[i].t == t
    ensures var v := Run(s, steps);
            && v.scripts == s.scripts && v.days == s.days + [DayGrant(user, day)]
            && v.books.checkins == s.books.checkins[user := day]
  {
    var begin := Begin(t, Checkin(user, day, quota));
    var a := Apply(s, begin);
    assert a.scripts[t] == [CheckDay(user, day, quota)];
    var b := Apply(a, Act(t));
    assert b.scripts[t] == [Credit(user, quota), Enter(Bill(user, "checkin", quota)), MarkDay(user, day)];
    GrantsAndMarks(b, t, user, day, quota);
    assert b.scripts[t := []] == s.scripts[t := []] == s.scripts;
    var acts := [Act(t)] + ([Act(t)] + ([Act(t)] + ([Act(t)] + [])));
    Prepend(a, Act(t), [Act(t)] + ([Act(t)] + ([Act(t)] + [])));
    Prepend(s, begin, acts);
    ActsAreSerial(a, acts, CheckinsOf(user));
    steps := [begin] + acts;
    assert steps[1..] == acts;
    assert Free(s, CheckinsOf(user));
  }

  /**
    Without that order, waiting is not enough: from every quiet state a day that
    comes back after another one is granted twice, by one goroutine alone.
   */
  lemma SetBackTwice(s: State, t: nat, user: string, a: string, b: string, quota: int) returns (steps: seq<Step>)
    requires Quiet(s) && t < |s.scripts| && a != b && !Stored(s.books, user, a)
    ensures Possible(s, steps) && Serial(s, steps, CheckinsOf(user))
    ensures forall i :: 0 <= i < |steps| ==> steps[i].t == t
    ensures TimesGranted(Run(s, steps), user, a) == TimesGranted(s, user, a) + 2
  {
    var first := Served(s, t, user, a, quota);
    var v := Run(s, first);
    var second := Served(v, t, user, b, quota);
    var w := Run(v, second);
    var third := Served(w, t, user, a, quota);
    RunJoin(v, second, third);
    SerialJoin(v, second, third, CheckinsOf(user));
    RunJoin(s, first, second + third);
    SerialJoin(s, first, second + third, CheckinsOf(user));
    TotalPush(s.days, DayGrant(user, a), Is(DayGrant(user, a)));
    TotalPush(v.days, DayGrant(user, b), Is(DayGrant(user, a)));
    TotalPush(w.days, DayGrant(user, a), Is(DayGrant(user, a)));
    steps := first + (second + third);
  }

  // ----- Overlapping check-ins are granted twice.

  /** Without waiting, from every quiet state two overlapping check-ins grant a new day twice. */
  lemma TwiceADay(s: State, t: nat, u: nat, user: string, day: string, quota: int) returns (steps: seq<Step>)
    requires Quiet(s) && t < |s.scripts| && u < |s.scripts| && t != u && !Stored(s.books, user, day)
    ensures Possible(s, steps) && TimesGranted(Run(s, steps), user, day) == TimesGranted(s, user, day) + 2
  {
    var r := Checkin(user, day, quota);
    var a := Apply(s, Begin(t, r));
    assert a.scripts[u] == [];
    var b := Apply(a, Begin(u, r));
    assert b.scripts[t] == [CheckDay(user, day, quota)] && b.scripts[u] == b.scripts[t];
    var c := Apply(b, Act(t));
    var d := Apply(c, Act(u));
    assert c.days == s.days + [DayGrant(user, day)] && d.days == c.days + [DayGrant(user, day)];
    TotalPush(s.days, DayGrant(user, day), Is(DayGrant(user, day)));
    TotalPush(c.days, DayGrant(user, day), Is(DayGrant(user, day)));
    Prepend(c, Act(u), []);
    Prepend(b, Act(t), [Act(u)] + []);
    Prepend(a, Begin(u, r), [Act(t)] + ([Act(u)] + []));
    Prepend(s, Begin(t, r), [Begin(u, r)] + ([Act(t)] + ([Act(u)] + [])));
    steps := [Begin(t, r)] + ([Begin(u, r)] + ([Act(t)] + ([Act(u)] + [])));
  }
}
