/**
  Registrations.  Counting the users, opening the account, loading the
  invitation and saving its use are four separate calls, and any number of
  registrations may stand between them.
 */
module Newcomers {
  import opened Accounts
  import opened Bytes
  import opened Sums
  import opened Sequences
  import opened Ledger
  import opened Turns

  // ----- How often an invitation is accepted.

  /** How often a registration was let in with this code. */
  function Uses(s: State, code: string): int {
    Total(s.joined, Is(code))
  }

  predicate Arriving(script: seq<Action>, code: string) {
    |script| == 1 && (script[0].CountUsers? || script[0].Enrol? || script[0].LoadInvite?) && script[0].code == code
  }

  /** Accepted, but the use is not saved yet. */
  predicate Saving(script: seq<Action>, code: string, inv: Invitation) {
    script != [] && script[0] == SaveInvite(code, inv) && Plain(script[1..])
  }

  /** The stored invitation, had every accepted use been saved. */
  function Counted(s: State, code: string, inv: Invitation, before: int): Invitation {
    inv.(used := inv.used + Uses(s, code) - before)
  }

  predicate Stores(b: Books, code: string, inv: Invitation) {
    code in b.invites && b.invites[code] == inv
  }

  /** `inv` is the invitation as it was when `before` registrations had been let in. */
  predicate Orderly(s: State, code: string, inv: Invitation, before: int) {
    var now := Counted(s, code, inv, before);
    && OneEach(s, AnInvite(code)) && now.used <= Max(inv.used, inv.count)
    && (forall t :: 0 <= t < |s.scripts| && Busy(s.scripts[t], AnInvite(code)) ==>
         if Saving(s.scripts[t], code, now) then Stores(s.books, code, now.(used := now.used - 1))
         else Arriving(s.scripts[t], code) && Stores(s.books, code, now))
    && (Free(s, AnInvite(code)) ==> Stores(s.books, code, now))
  }

  lemma InviteElsewhere(s: State, a: Action, code: string)
    requires !Handles(a, AnInvite(code))
    ensures var v := Called(s, a);
            && Uses(v, code) == Uses(s, code)
            && (code in v.books.invites <==> code in s.books.invites)
            && (code in s.books.invites ==> v.books.invites[code] == s.books.invites[code])
  {
    if a.LoadInvite? {
      TotalPush(s.joined, a.code, Is(code));
    } else {
      assert Noted(s, a).joined == s.joined;
    }
  }

  /** Whoever is at work on the invitation is about to make a call about it. */
  lemma BusyHead(s: State, t: nat, code: string, inv: Invitation, before: int)
    requires Orderly(s, code, inv, before) && Enabled(s, Act(t)) && Busy(s.scripts[t], AnInvite(code))
    ensures Handles(s.scripts[t][0], AnInvite(code))
  {
  }

  /** A step that neither touches the invitation nor changes who works on it. */
  lemma StaysOrderly(s: State, v: State, t: nat, code: string, inv: Invitation, before: int)
    requires Orderly(s, code, inv, before) && OneEach(v, AnInvite(code))
    requires Uses(v, code) == Uses(s, code)
    requires code in s.books.invites <==> code in v.books.invites
    requires code in s.books.invites ==> v.books.invites[code] == s.books.invites[code]
    requires t < |s.scripts| == |v.scripts| && !Busy(s.scripts[t], AnInvite(code))
    requires forall x :: 0 <= x < |s.scripts| && x != t ==> v.scripts[x] == s.scripts[x]
    requires Busy(v.scripts[t], AnInvite(code)) ==> Free(s, AnInvite(code)) && Arriving(v.scripts[t], code)
    ensures Orderly(v, code, inv, before)
  {
    var now := Counted(s, code, inv, before);
    assert Counted(v, code, inv, before) == now;
    forall x | 0 <= x < |v.scripts| && Busy(v.scripts[x], AnInvite(code))
      ensures if Saving(v.scripts[x], code, now) then Stores(v.books, code, now.(used := now.used - 1))
              else Arriving(v.scripts[x], code) && Stores(v.books, code, now)
    {
      assert x != t ==> Busy(s.scripts[x], AnInvite(code));
    }
    if Free(v, AnInvite(code)) {
      assert forall x :: 0 <= x < |s.scripts| && x != t ==> !Busy(v.scripts[x], AnInvite(code));
      assert Free(s, AnInvite(code));
    }
  }

  lemma BeginOrderly(s: State, step: Step, code: string, inv: Invitation, before: int)
    requires step.Begin? && Orderly(s, code, inv, before) && Enabled(s, step) && Waits(s, step, AnInvite(code))
    ensures Orderly(Apply(s, step), code, inv, before)
  {
    var v := Apply(s, step);
    StepOneEach(s, step, AnInvite(code));
    if Busy(v.scripts[step.t], AnInvite(code)) {
      BusyScript(step.request, AnInvite(code));
    }
    StaysOrderly(s, v, step.t, code, inv, before);
  }

  lemma ActElsewhere(s: State, t: nat, code: string, inv: Invitation, before: int)
    requires Orderly(s, code, inv, before) && Enabled(s, Act(t)) && !Handles(s.scripts[t][0], AnInvite(code))
    ensures Orderly(Apply(s, Act(t)), code, inv, before)
  {
    var v := Apply(s, Act(t));
    if Busy(s.scripts[t], AnInvite(code)) {
      BusyHead(s, t, code, inv, before);
    }
    StepOneEach(s, Act(t), AnInvite(code));
    SameBusy(s, t, AnInvite(code));
    InviteElsewhere(s, s.scripts[t][0], code);
    assert Uses(v, code) == Uses(Called(s, s.scripts[t][0]), code);
    StaysOrderly(s, v, t, code, inv, before);
  }

  /** After the next call of the registration at work. */
  predicate GoesOn(v: State, script: seq<Action>, code: string, inv: Invitation, before: int) {
    var now := Counted(v, code, inv, before);
    && now.used <= Max(inv.used, inv.count)
    && if Saving(script, code, now) then Stores(v.books, code, now.(used := now.used - 1))
       else Stores(v.books, code, now) && (Arriving(script, code) || !Busy(script, AnInvite(code)))
  }

  lemma LoadGoesOn(s: State, name: string, code: string, inv: Invitation, before: int)
    requires var now := Counted(s, code, inv, before);
             Stores(s.books, code, now) && now.used <= Max(inv.used, inv.count)
    ensures GoesOn(Called(s, LoadInvite(name, code)), More(s.books, LoadInvite(name, code)), code, inv, before)
  {
    var a := LoadInvite(name, code);
    var v := Called(s, a);
    if Open(s.books, code) {
      var next := UsedOnce(s.books.invites[code]);
      LoadedOpen(s, name, code, inv, before);
      SavingNext(name, code, next);
    } else {
      assert v == s && More(s.books, a) == [];
    }
  }

  lemma SavingNext(name: string, code: string, next: Invitation)
    ensures Saving([SaveInvite(code, next)] + Invited(name, next), code, next)
  {
    assert ([SaveInvite(code, next)] + Invited(name, next))[1..] == Invited(name, next);
  }

  lemma LoadedOpen(s: State, name: string, code: string, inv: Invitation, before: int)
    requires Stores(s.books, code, Counted(s, code, inv, before)) && Open(s.books, code)
    ensures var v, next := Called(s, LoadInvite(name, code)), UsedOnce(s.books.invites[code]);
            && v.books == s.books && Counted(v, code, inv, before) == next && next.used <= inv.count
            && More(s.books, LoadInvite(name, code)) == [SaveInvite(code, next)] + Invited(name, next)
  {
    TotalPush(s.joined, code, Is(code));
  }

  lemma SaveGoesOn(s: State, script: seq<Action>, code: string, inv: Invitation, before: int)
    requires var now := Counted(s, code, inv, before);
             now.used <= Max(inv.used, inv.count) && Saving(script, code, now)
    ensures GoesOn(Called(s, script[0]), script[1..], code, inv, before)
  {
    assert Called(s, script[0]).joined == s.joined;
    assert !Busy(script[1..], AnInvite(code));
  }

  lemma SameGoesOn(v: State, w: State, script: seq<Action>, code: string, inv: Invitation, before: int)
    requires GoesOn(v, script, code, inv, before) && w.books == v.books && w.joined == v.joined
    ensures GoesOn(w, script, code, inv, before)
  {
  }

  /** Before the invitation is loaded nothing is said about it. */
  lemma ComingGoesOn(s: State, script: seq<Action>, code: string, inv: Invitation, before: int)
    requires var now := Counted(s, code, inv, before);
             Stores(s.books, code, now) && now.used <= Max(inv.used, inv.count)
    requires Arriving(script, code) && (script[0].CountUsers? || script[0].Enrol?)
    ensures GoesOn(Called(s, script[0]), More(s.books, script[0]), code, inv, before)
  {
    var v := Called(s, script[0]);
    assert v.joined == s.joined && v.books.invites == s.books.invites;
  }

  lemma ActGoesOn(s: State, t: nat, code: string, inv: Invitation, before: int)
    requires Orderly(s, code, inv, before) && Enabled(s, Act(t)) && Handles(s.scripts[t][0], AnInvite(code))
    ensures GoesOn(Apply(s, Act(t)), Apply(s, Act(t)).scripts[t], code, inv, before)
  {
    var script := s.scripts[t];
    var a := script[0];
    assert Busy(script, AnInvite(code));
    if a.SaveInvite? {
      SaveGoesOn(s, script, code, inv, before);
      EmptyFirst(script[1..]);
    } else {
      assert More(s.books, a) + script[1..] == More(s.books, a);
      if a.LoadInvite? {
        LoadGoesOn(s, a.name, code, inv, before);
      } else {
        ComingGoesOn(s, script, code, inv, before);
      }
    }
    SameGoesOn(Called(s, a), Apply(s, Act(t)), Apply(s, Act(t)).scripts[t], code, inv, before);
  }

  lemma ActHere(s: State, t: nat, code: string, inv: Invitation, before: int)
    requires Orderly(s, code, inv, before) && Enabled(s, Act(t)) && Handles(s.scripts[t][0], AnInvite(code))
    ensures Orderly(Apply(s, Act(t)), code, inv, before)
  {
    var v := Apply(s, Act(t));
    assert Busy(s.scripts[t], AnInvite(code));
    ActGoesOn(s, t, code, inv, before);
    StepOneEach(s, Act(t), AnInvite(code));
    forall x | 0 <= x < |s.scripts| && x != t
      ensures !Busy(v.scripts[x], AnInvite(code))
    {
      assert v.scripts[x] == s.scripts[x];
    }
    if Saving(v.scripts[t], code, Counted(v, code, inv, before)) {
      assert Handles(v.scripts[t][0], AnInvite(code));
    }
  }

  lemma {:induction false} RunOrderly(s: State, steps: seq<Step>, code: string, inv: Invitation, before: int)
    requires Orderly(s, code, inv, before) && Possible(s, steps) && Serial(s, steps, AnInvite(code))
    ensures Orderly(Run(s, steps), code, inv, before)
    decreases steps
  {
    if steps == [] {
    } else {
      if steps[0].Begin? {
        BeginOrderly(s, steps[0], code, inv, before);
      } else if Handles(s.scripts[steps[0].t][0], AnInvite(code)) {
        ActHere(s, steps[0].t, code, inv, before);
      } else {
        ActElsewhere(s, steps[0].t, code, inv, before);
      }
      RunOrderly(Apply(s, steps[0]), steps[1..], code, inv, before);
    }
  }

  /**
    When registrations with one code wait for each other, it lets in no more of
    them than it has uses left, and whenever none is under way the stored count
    has grown by exactly those.
   */
  lemma UsedWithinCount(s: State, steps: seq<Step>, code: string)
    requires Quiet(s) && code in s.books.invites && Possible(s, steps) && Serial(s, steps, AnInvite(code))
    ensures var inv, v := s.books.invites[code], Run(s, steps);
            && Uses(v, code) - Uses(s, code) <= Max(0, inv.count - inv.used)
            && (Free(v, AnInvite(code)) ==>
                 Stores(v.books, code, inv.(used := inv.used + Uses(v, code) - Uses(s, code))))
  {
    RunOrderly(s, steps, code, s.books.invites[code], Uses(s, code));
  }

  // ----- Who becomes the first account.

  function Roots(users: seq<User>): int {
    Total(users, (u: User) => if u.role == "root" then 1 else 0)
  }

  /** A registration on its way to its account takes the role the records call for. */
  predicate Entering(users: seq<User>, script: seq<Action>) {
    && |script| == 1
    && (script[0].CountUsers? || (script[0].Enrol? && (script[0].role == "root" <==> users == [])))
  }

  ghost predicate Ranked(s: State) {
    && (s.books.users == [] ==> OneEach(s, FirstAccount))
    && forall t :: 0 <= t < |s.scripts| && Busy(s.scripts[t], FirstAccount) ==> Entering(s.books.users, s.scripts[t])
  }

  /** How many root accounts there are, `roots` being how many there were besides the first. */
  function Expected(users: seq<User>, roots: int): int {
    if users == [] then 0 else roots
  }

  lemma CallKeepsRoots(b: Books, a: Action)
    requires !a.Enrol?
    ensures Roots(Effect(b, a).users) == Roots(b.users) && |Effect(b, a).users| == |b.users|
  {
    if a.Credit? || a.Debit? || a.Consume? {
      var i := FirstUser(b.users, a.user);
      if i < |b.users| {
        TotalSet(b.users, i, Effect(b, a).users[i], (u: User) => if u.role == "root" then 1 else 0);
      }
    } else {
      assert Effect(b, a).users == b.users;
    }
  }

  lemma EnrolRoots(b: Books, a: Action)
    requires a.Enrol? && !Exists(b.users, a.name)
    ensures Roots(Effect(b, a).users) == Roots(b.users) + if a.role == "root" then 1 else 0
  {
    TotalPush(b.users, User(a.name, a.role, 1, a.quota, 0), (u: User) => if u.role == "root" then 1 else 0);
  }

  lemma ActRoots(s: State, t: nat, roots: int)
    requires Ranked(s) && Roots(s.books.users) == Expected(s.books.users, roots) && Enabled(s, Act(t))
    requires s.books.users == [] ==> roots == 1
    ensures Roots(Apply(s, Act(t)).books.users) == Expected(Apply(s, Act(t)).books.users, roots)
  {
    var a := s.scripts[t][0];
    if a.Enrol? {
      assert Handles(a, FirstAccount) && Busy(s.scripts[t], FirstAccount);
      if !Exists(s.books.users, a.name) {
        EnrolRoots(s.books, a);
      }
    } else {
      CallKeepsRoots(s.books, a);
    }
  }

  lemma ActRanked(s: State, t: nat)
    requires Ranked(s) && Enabled(s, Act(t))
    ensures Ranked(Apply(s, Act(t)))
  {
    var v, script := Apply(s, Act(t)), s.scripts[t];
    if !script[0].Enrol? {
      CallKeepsRoots(s.books, script[0]);
    }
    if s.books.users == [] {
      StepOneEach(s, Act(t), FirstAccount);
    }
    forall x | 0 <= x < |v.scripts| && Busy(v.scripts[x], FirstAccount)
      ensures Entering(v.books.users, v.scripts[x])
    {
      if x == t {
        NextEntering(s, t);
      } else {
        assert v.scripts[x] == s.scripts[x] && Entering(s.books.users, s.scripts[x]);
        assert script[0].Enrol? ==> Busy(script, FirstAccount);
      }
    }
  }

  lemma NextEntering(s: State, t: nat)
    requires Ranked(s) && Enabled(s, Act(t)) && Busy(Apply(s, Act(t)).scripts[t], FirstAccount)
    ensures Entering(Apply(s, Act(t)).books.users, Apply(s, Act(t)).scripts[t])
  {
    var script := s.scripts[t];
    if !Handles(script[0], FirstAccount) {
      SameBusy(s, t, FirstAccount);
    }
    assert Busy(script, FirstAccount) && Entering(s.books.users, script);
    assert More(s.books, script[0]) + script[1..] == More(s.books, script[0]);
  }

  lemma BeginRanked(s: State, step: Step)
    requires Ranked(s) && step.Begin? && Enabled(s, step)
    requires s.books.users == [] ==> Waits(s, step, FirstAccount)
    ensures Ranked(Apply(s, step))
  {
    var v := Apply(s, step);
    if s.books.users == [] {
      StepOneEach(s, step, FirstAccount);
    }
    forall x | 0 <= x < |v.scripts| && Busy(v.scripts[x], FirstAccount)
      ensures Entering(v.books.users, v.scripts[x])
    {
      if x == step.t {
        BusyScript(step.request, FirstAccount);
      } else {
        assert v.scripts[x] == s.scripts[x];
      }
    }
  }

  lemma {:induction false} RunRoots(s: State, steps: seq<Step>, roots: int)
    requires Ranked(s) && Roots(s.books.users) == Expected(s.books.users, roots) && Possible(s, steps)
    requires s.books.users == [] ==> roots == 1 && Serial(s, steps, FirstAccount)
    ensures Roots(Run(s, steps).books.users) == Expected(Run(s, steps).books.users, roots)
    decreases steps
  {
    if steps == [] {
    } else {
      if steps[0].Begin? {
        BeginRanked(s, steps[0]);
      } else {
        ActRanked(s, steps[0].t);
        ActRoots(s, steps[0].t, roots);
      }
      RunRoots(Apply(s, steps[0]), steps[1..], roots);
    }
  }

  /**
    When there are users, no registration becomes root, whatever overlaps.  When
    there are none and registrations wait for each other, exactly the first
    account that is opened is root's.
   */
  lemma OneRoot(s: State, steps: seq<Step>)
    requires Quiet(s) && Possible(s, steps)
    requires s.books.users == [] ==> Serial(s, steps, FirstAccount)
    ensures Roots(Run(s, steps).books.users)
            == if s.books.users != [] then Roots(s.books.users)
               else if Run(s, steps).books.users == [] then 0 else 1
  {
    var roots := if s.books.users == [] then 1 else Roots(s.books.users);
    RunRoots(s, steps, roots);
    StillUsers(s, steps);
  }

  lemma {:induction false} StillUsers(s: State, steps: seq<Step>)
    requires Possible(s, steps)
    ensures |Run(s, steps).books.users| >= |s.books.users|
    decreases steps
  {
    if steps == [] {
    } else {
      if steps[0].Act? {
        NoFewerUsers(s.books, s.scripts[steps[0].t][0]);
      }
      StillUsers(Apply(s, steps[0]), steps[1..]);
    }
  }

  lemma NoFewerUsers(b: Books, a: Action)
    ensures |Effect(b, a).users| >= |b.users|
  {
  }

  // ----- Two registrations that overlap.

  function Enrolling(users: seq<User>, name: string, quota: int, code: string): Action {
    var u := NewAccount(users, name, quota);
    Enrol(name, u.role, u.quota, code)
  }

  /** `s` with the scripts of two goroutines replaced. */
  function Both(s: State, t: nat, p: seq<Action>, u: nat, q: seq<Action>): State
    requires t < |s.scripts| && u < |s.scripts|
  {
    s.(scripts := s.scripts[t := p][u := q])
  }

  predicate Two(s: State, t: nat, u: nat) {
    t < |s.scripts| && u < |s.scripts| && t != u
  }

  lemma BothBegin(s: State, t: nat, u: nat, r: Request, q: Request)
    requires Two(s, t, u) && s.scripts[t] == [] && s.scripts[u] == []
    ensures Leads(s, Begin(t, r), Begin(u, q), Both(s, t, Script(r), u, Script(q)))
  {
  }

  lemma NotedAnyhow(s: State, a: Action, scripts: seq<seq<Action>>)
    ensures Called(s.(scripts := scripts), a) == Called(s, a).(scripts := scripts) && Called(s, a).scripts == s.scripts
  {
  }

  lemma BothAct(s: State, t: nat, u: nat, x: Action, p: seq<Action>, y: Action, q: seq<Action>)
    requires Two(s, t, u)
    ensures var h := Called(s, x);
            var v := Called(h, y);
            && Two(v, t, u)
            && Leads(Both(s, t, [x] + p, u, [y] + q), Act(t), Act(u),
                     Both(v, t, More(s.books, x) + p, u, More(h.books, y) + q))
  {
    var a := Both(s, t, [x] + p, u, [y] + q);
    var h := Called(s, x);
    var b := Both(h, t, More(s.books, x) + p, u, [y] + q);
    NotedAnyhow(s, x, a.scripts);
    assert ([x] + p)[1..] == p && ([y] + q)[1..] == q;
    assert a.scripts[t] == [x] + p && a.scripts[t := More(s.books, x) + p] == b.scripts;
    assert Apply(a, Act(t)) == b;
    var v := Called(h, y);
    var c := Both(v, t, More(s.books, x) + p, u, More(h.books, y) + q);
    NotedAnyhow(h, y, b.scripts);
    assert b.scripts[u] == [y] + q && b.scripts[u := More(h.books, y) + q] == c.scripts;
    assert Apply(b, Act(u)) == c;
  }

  /** Both have found the same users, and opened their accounts. */
  function Enrolled(s: State, a: string, b: string, quota: int): State {
    var users := s.books.users;
    var x, y := NewAccount(users, a, quota), NewAccount(users, b, quota);
    s.(books := s.books.(users := users + [x] + [y]),
       openings := s.openings + [Bill(a, "opening", x.quota)] + [Bill(b, "opening", y.quota)])
  }

  function Welcome(name: string, code: string): seq<Action> {
    if code == "" then [] else [LoadInvite(name, code)]
  }

  lemma NotAmong(users: seq<User>, u: User, name: string)
    requires !Exists(users, name) && u.name != name
    ensures !Exists(users + [u], name)
  {
    var more := users + [u];
    assert forall i :: 0 <= i < |more| ==> more[i].name != name;
  }

  lemma BothCounted(s: State, t: nat, u: nat, a: string, b: string, quota: int, code: string)
    requires Two(s, t, u)
    ensures var users := s.books.users;
            Leads(Both(s, t, [CountUsers(a, quota, code)], u, [CountUsers(b, quota, code)]), Act(t), Act(u),
                  Both(s, t, [Enrolling(users, a, quota, code)], u, [Enrolling(users, b, quota, code)]))
  {
    var x, y := CountUsers(a, quota, code), CountUsers(b, quota, code);
    var p, q := Enrolling(s.books.users, a, quota, code), Enrolling(s.books.users, b, quota, code);
    BothAct(s, t, u, x, [], y, []);
    assert [x] + [] == [x] && [y] + [] == [y] && [p] + [] == [p] && [q] + [] == [q];
    assert Called(s, x) == s && Called(s, y) == s;
  }

  lemma BothOpened(s: State, t: nat, u: nat, a: string, b: string, quota: int, code: string)
    requires Two(s, t, u) && a != b && !Exists(s.books.users, a) && !Exists(s.books.users, b)
    ensures var users := s.books.users;
            Leads(Both(s, t, [Enrolling(users, a, quota, code)], u, [Enrolling(users, b, quota, code)]), Act(t), Act(u),
                  Both(Enrolled(s, a, b, quota), t, Welcome(a, code), u, Welcome(b, code)))
  {
    var users := s.books.users;
    var p, q := Enrolling(users, a, quota, code), Enrolling(users, b, quota, code);
    BothAct(s, t, u, p, [], q, []);
    assert [p] + [] == [p] && [q] + [] == [q];
    NotAmong(users, NewAccount(users, a, quota), b);
    assert Called(Called(s, p), q) == Enrolled(s, a, b, quota);
    assert Welcome(a, code) + [] == Welcome(a, code) && Welcome(b, code) + [] == Welcome(b, code);
  }

  /** Two overlapping registrations open their accounts as if each were alone. */
  lemma BothEnrol(s: State, t: nat, u: nat, a: string, b: string, quota: int, code: string) returns (steps: seq<Step>)
    requires Quiet(s) && Two(s, t, u) && a != b && !Exists(s.books.users, a) && !Exists(s.books.users, b)
    ensures Possible(s, steps)
    ensures Run(s, steps) == Both(Enrolled(s, a, b, quota), t, Welcome(a, code), u, Welcome(b, code))
  {
    var users := s.books.users;
    var r, q := Register(a, quota, code), Register(b, quota, code);
    var counting := Both(s, t, [CountUsers(a, quota, code)], u, [CountUsers(b, quota, code)]);
    var entering := Both(s, t, [Enrolling(users, a, quota, code)], u, [Enrolling(users, b, quota, code)]);
    var v := Both(Enrolled(s, a, b, quota), t, Welcome(a, code), u, Welcome(b, code));
    BothBegin(s, t, u, r, q);
    BothCounted(s, t, u, a, b, quota, code);
    BothOpened(s, t, u, a, b, quota, code);
    LeadsOn(entering, Act(t), Act(u), v, []);
    steps := [Act(t)] + ([Act(u)] + []);
    LeadsOn(counting, Act(t), Act(u), entering, steps);
    steps := [Act(t)] + ([Act(u)] + steps);
    LeadsOn(s, Begin(t, r), Begin(u, q), counting, steps);
    steps := [Begin(t, r)] + ([Begin(u, q)] + steps);
  }

  /** Without waiting, the first two accounts can both be root's and unmetered. */
  lemma TwoRoots(s: State, t: nat, u: nat, a: string, b: string, quota: int, code: string) returns (steps: seq<Step>)
    requires Quiet(s) && Two(s, t, u) && s.books.users == [] && a != b
    ensures Possible(s, steps)
    ensures Run(s, steps).books.users == [User(a, "root", 1, -1, 0), User(b, "root", 1, -1, 0)]
    ensures Roots(Run(s, steps).books.users) == 2
  {
    steps := BothEnrol(s, t, u, a, b, quota, code);
    var x, y := User(a, "root", 1, -1, 0), User(b, "root", 1, -1, 0);
    TotalPush([], x, (u: User) => if u.role == "root" then 1 else 0);
    TotalPush([x], y, (u: User) => if u.role == "root" then 1 else 0);
    assert [] + [x] == [x] && [x] + [y] == [x, y] && [] + [x] + [y] == [x, y];
  }

  /** Both were let in and one use was saved. */
  function Accepted(s: State, code: string): State
    requires code in s.books.invites
  {
    s.(books := s.books.(invites := s.books.invites[code := UsedOnce(s.books.invites[code])]),
       joined := s.joined + [code] + [code])
  }

  lemma BothAccepted(s: State, t: nat, u: nat, a: string, b: string, code: string) returns (steps: seq<Step>)
    requires Two(s, t, u) && Open(s.books, code)
    ensures var inv := UsedOnce(s.books.invites[code]);
            && Possible(Both(s, t, [LoadInvite(a, code)], u, [LoadInvite(b, code)]), steps)
            && Run(Both(s, t, [LoadInvite(a, code)], u, [LoadInvite(b, code)]), steps)
               == Both(Accepted(s, code), t, Invited(a, inv), u, Invited(b, inv))
  {
    var inv := UsedOnce(s.books.invites[code]);
    var x, y, save := LoadInvite(a, code), LoadInvite(b, code), SaveInvite(code, inv);
    var p, q := Invited(a, inv), Invited(b, inv);
    BothAct(s, t, u, x, [], y, []);
    assert [x] + [] == [x] && [y] + [] == [y];
    assert ([save] + p) + [] == [save] + p && ([save] + q) + [] == [save] + q;
    var h := s.(joined := s.joined + [code] + [code]);
    assert Called(Called(s, x), y) == h;
    BothAct(h, t, u, save, p, save, q);
    EmptyFirst(p);
    EmptyFirst(q);
    assert Called(Called(h, save), save) == Accepted(s, code);
    LeadsOn(Both(h, t, [save] + p, u, [save] + q), Act(t), Act(u), Both(Accepted(s, code), t, p, u, q), []);
    steps := [Act(t)] + ([Act(u)] + []);
    LeadsOn(Both(s, t, [x], u, [y]), Act(t), Act(u), Both(h, t, [save] + p, u, [save] + q), steps);
    steps := [Act(t)] + ([Act(u)] + steps);
  }

  /**
    Without waiting, an invitation with one use left can let two registrations
    in: from every quiet state some run credits both newcomers and saves one use.
   */
  lemma BothWelcome(s: State, t: nat, u: nat, a: string, b: string, quota: int, code: string) returns (steps: seq<Step>)
    requires Quiet(s) && Two(s, t, u) && a != b && !Exists(s.books.users, a) && !Exists(s.books.users, b)
    requires code != "" && Open(s.books, code)
    ensures Possible(s, steps)
    ensures var inv, v := s.books.invites[code], Run(s, steps);
            && Uses(v, code) == Uses(s, code) + 2 && Stores(v.books, code, UsedOnce(inv))
            && Balance(v.books.users, a) == NewAccount(s.books.users, a, quota).quota + inv.quota
            && Balance(v.books.users, b) == NewAccount(s.books.users, b, quota).quota + inv.quota
  {
    var inv := UsedOnce(s.books.invites[code]);
    var e := Enrolled(s, a, b, quota);
    var first := BothEnrol(s, t, u, a, b, quota, code);
    var second := BothAccepted(e, t, u, a, b, code);
    var third := BothCredited(Accepted(e, code), t, u, a, b, inv);
    RunJoin(s, first, second);
    RunJoin(s, first + second, third);
    TotalPush(s.joined, code, Is(code));
    TotalPush(s.joined + [code], code, Is(code));
    CreditedBoth(s.books.users, a, b, quota, inv.quota);
    steps := first + second + third;
  }

  /** Both newcomers get their quota; the bills and the inviter's bonuses are still to come. */
  lemma BothCredited(s: State, t: nat, u: nat, a: string, b: string, inv: Invitation) returns (steps: seq<Step>)
    requires Two(s, t, u)
    ensures Possible(Both(s, t, Invited(a, inv), u, Invited(b, inv)), steps)
    ensures var v := Run(Both(s, t, Invited(a, inv), u, Invited(b, inv)), steps);
            && v.books == s.books.(users := AddQuota(AddQuota(s.books.users, a, inv.quota), b, inv.quota))
            && v.joined == s.joined
  {
    var x, y := Credit(a, inv.quota), Credit(b, inv.quota);
    var p, q := Invited(a, inv)[1..], Invited(b, inv)[1..];
    assert [x] + p == Invited(a, inv) && [y] + q == Invited(b, inv);
    BothAct(s, t, u, x, p, y, q);
    EmptyFirst(p);
    EmptyFirst(q);
    var last := Both(Called(Called(s, x), y), t, p, u, q);
    LeadsOn(Both(s, t, Invited(a, inv), u, Invited(b, inv)), Act(t), Act(u), last, []);
    steps := [Act(t)] + ([Act(u)] + []);
  }

  lemma CreditedBoth(users: seq<User>, a: string, b: string, quota: int, n: int)
    requires a != b && !Exists(users, a) && !Exists(users, b)
    ensures var x, y := NewAccount(users, a, quota), NewAccount(users, b, quota);
            var after := AddQuota(AddQuota(users + [x] + [y], a, n), b, n);
            Balance(after, a) == x.quota + n && Balance(after, b) == y.quota + n
  {
    var x, y := NewAccount(users, a, quota), NewAccount(users, b, quota);
    NotAmong(users, x, b);
    EnrolBalance(users, x, a);
    EnrolBalance(users, x, b);
    EnrolBalance(users + [x], y, a);
    EnrolBalance(users + [x], y, b);
    var both := users + [x] + [y];
    assert both[|users|].name == a && both[|users| + 1].name == b;
    AddQuotaBalance(both, a, n, a);
    AddQuotaBalance(both, a, n, b);
    SameFirst(both, AddQuota(both, a, n), b);
    AddQuotaBalance(AddQuota(both, a, n), b, n, a);
    AddQuotaBalance(AddQuota(both, a, n), b, n, b);
  }
}
