/**
  The channels a relayed request may use: those that are usable, in the group
  and support the model, narrowed to the highest priority.
 */
module Candidacy {
  import opened Bytes
  import opened Channels
  import opened Sequences

  predicate Candidate(c: Channel, group: bytes, model: bytes, blocked: set<int>) {
    c.status == 1 && c.id !in blocked && c.group == group && (model == "" || Supports(c.models, model))
  }

  function Candidates(all: seq<Channel>, group: bytes, model: bytes, blocked: set<int>): (cs: seq<Channel>)
    ensures |cs| <= |all|
  {
    if all == [] then []
    else
      (if Candidate(all[0], group, model, blocked) then [all[0]] else [])
      + Candidates(all[1..], group, model, blocked)
  }

  function OfPriority(cs: seq<Channel>, p: int): (ps: seq<Channel>)
    ensures |ps| <= |cs|
  {
    if cs == [] then [] else (if cs[0].priority == p then [cs[0]] else []) + OfPriority(cs[1..], p)
  }

  function MaxPriority(cs: seq<Channel>): int
    requires cs != []
  {
    if |cs| == 1 then cs[0].priority else Max(cs[0].priority, MaxPriority(cs[1..]))
  }

  /** The candidates of the highest priority, in store order. */
  function Top(all: seq<Channel>, group: bytes, model: bytes, blocked: set<int>): (top: seq<Channel>)
    ensures |top| <= |all|
  {
    var cands := Candidates(all, group, model, blocked);
    if cands == [] then [] else OfPriority(cands, MaxPriority(cands))
  }

  lemma {:induction false} CandidatesAppend(a: seq<Channel>, b: seq<Channel>,
                                            group: bytes, model: bytes, blocked: set<int>)
    ensures Candidates(a + b, group, model, blocked)
            == Candidates(a, group, model, blocked) + Candidates(b, group, model, blocked)
  {
    if a == [] {
      assert a + b == b;
    } else {
      assert (a + b)[1..] == a[1..] + b;
      CandidatesAppend(a[1..], b, group, model, blocked);
      Associates(if Candidate(a[0], group, model, blocked) then [a[0]] else [],
                 Candidates(a[1..], group, model, blocked), Candidates(b, group, model, blocked));
    }
  }

  predicate Descending(cs: seq<Channel>) {
    forall i, j :: 0 <= i < j < |cs| ==> cs[i].priority >= cs[j].priority
  }

  /** Sorted by priority, channels of equal priority in their old order. */
  ghost predicate StablySorted(sorted: seq<Channel>, cs: seq<Channel>) {
    Descending(sorted) && forall p :: OfPriority(sorted, p) == OfPriority(cs, p)
  }

  function Insert(c: Channel, sorted: seq<Channel>): seq<Channel> {
    if sorted == [] || sorted[0].priority <= c.priority then [c] + sorted
    else [sorted[0]] + Insert(c, sorted[1..])
  }

  lemma {:induction false} InsertDescends(c: Channel, sorted: seq<Channel>)
    requires Descending(sorted)
    ensures Descending(Insert(c, sorted))
    ensures forall d :: d in Insert(c, sorted) ==> d == c || d in sorted
  {
    if sorted == [] || sorted[0].priority <= c.priority {
    } else {
      var rest := Insert(c, sorted[1..]);
      InsertDescends(c, sorted[1..]);
      forall j | 0 <= j < |rest|
        ensures sorted[0].priority >= rest[j].priority
      {
        assert rest[j] in rest;
        assert rest[j] == c || rest[j] in sorted[1..];
      }
    }
  }

  lemma OfCons(c: Channel, cs: seq<Channel>, p: int)
    ensures OfPriority([c] + cs, p) == (if c.priority == p then [c] else []) + OfPriority(cs, p)
  {
    assert ([c] + cs)[1..] == cs;
  }

  lemma {:induction false} InsertStable(c: Channel, sorted: seq<Channel>, p: int)
    requires Descending(sorted)
    ensures OfPriority(Insert(c, sorted), p) == (if c.priority == p then [c] else []) + OfPriority(sorted, p)
  {
    if sorted != [] && sorted[0].priority > c.priority {
      var rest := sorted[1..];
      InsertStable(c, rest, p);
      OfCons(sorted[0], Insert(c, rest), p);
      OfCons(sorted[0], rest, p);
      assert sorted == [sorted[0]] + rest;
      assert c.priority != p || sorted[0].priority != p;
      EmptyFirst(OfPriority(rest, p));
    } else {
      OfCons(c, sorted, p);
    }
  }

  /** `sort.SliceStable` by descending priority. */
  method SliceStable(cs: seq<Channel>) returns (sorted: seq<Channel>)
    ensures StablySorted(sorted, cs)
  {
    sorted := [];
    var i := |cs|;
    assert cs[i..] == [];
    while i > 0
      invariant 0 <= i <= |cs|
      invariant StablySorted(sorted, cs[i..])
    {
      i := i - 1;
      assert cs[i..][0] == cs[i] && cs[i..][1..] == cs[i + 1..];
      InsertDescends(cs[i], sorted);
      forall p
        ensures OfPriority(Insert(cs[i], sorted), p) == OfPriority(cs[i..], p)
      {
        InsertStable(cs[i], sorted, p);
        assert OfPriority(sorted, p) == OfPriority(cs[i + 1..], p);
      }
      sorted := Insert(cs[i], sorted);
    }
    assert cs[0..] == cs;
  }

  /** The leading channels of one priority. */
  function Lead(cs: seq<Channel>, p: int): seq<Channel> {
    if cs == [] || cs[0].priority != p then [] else [cs[0]] + Lead(cs[1..], p)
  }

  lemma {:induction false} LeadIsAll(cs: seq<Channel>, p: int)
    requires Descending(cs) && forall i :: 0 <= i < |cs| ==> cs[i].priority <= p
    ensures Lead(cs, p) == OfPriority(cs, p)
  {
    if cs == [] {
    } else {
      if cs[0].priority == p {
        LeadIsAll(cs[1..], p);
      } else {
        NoneOf(cs, p);
      }
    }
  }

  lemma {:induction false} NoneOf(cs: seq<Channel>, p: int)
    requires forall i :: 0 <= i < |cs| ==> cs[i].priority != p
    ensures OfPriority(cs, p) == []
  {
    if cs == [] {
    } else {
      NoneOf(cs[1..], p);
    }
  }

  lemma {:induction false} MaxIsThere(cs: seq<Channel>)
    requires cs != []
    ensures OfPriority(cs, MaxPriority(cs)) != []
    ensures forall p :: p > MaxPriority(cs) ==> OfPriority(cs, p) == []
    ensures forall i :: 0 <= i < |cs| ==> cs[i].priority <= MaxPriority(cs)
  {
    if |cs| > 1 {
      MaxIsThere(cs[1..]);
    } else {
      assert cs[1..] == [];
    }
  }

  lemma {:induction false} SomeOf(cs: seq<Channel>, p: int)
    ensures OfPriority(cs, p) != [] <==> exists i :: 0 <= i < |cs| && cs[i].priority == p
  {
    if cs == [] {
    } else {
      SomeOf(cs[1..], p);
      if exists i :: 0 <= i < |cs| && cs[i].priority == p {
        var i :| 0 <= i < |cs| && cs[i].priority == p;
        if i > 0 {
          assert cs[1..][i - 1].priority == p;
        }
      }
      if exists i :: 0 <= i < |cs[1..]| && cs[1..][i].priority == p {
        var i :| 0 <= i < |cs[1..]| && cs[1..][i].priority == p;
        assert cs[i + 1].priority == p;
      }
    }
  }

  /** Sorting and taking the leading run is filtering on the maximum. */
  lemma LeadOfSorted(sorted: seq<Channel>, cs: seq<Channel>)
    requires StablySorted(sorted, cs) && cs != []
    ensures sorted != [] && sorted[0].priority == MaxPriority(cs)
    ensures Lead(sorted, sorted[0].priority) == OfPriority(cs, MaxPriority(cs))
  {
    var m := MaxPriority(cs);
    MaxIsThere(cs);
    SomeOf(sorted, m);
    var i :| 0 <= i < |sorted| && sorted[i].priority == m;
    SomeOf(sorted, sorted[0].priority);
    assert OfPriority(sorted, sorted[0].priority) != [];
    assert sorted[0].priority <= m;
    assert sorted[0].priority == m by {
      assert i == 0 || sorted[0].priority >= sorted[i].priority;
    }
    LeadIsAll(sorted, m);
  }

  /** `top := cands[:0]`, appended to in place: the backing array is overwritten with itself. */
  method TakeLead(cands: array<Channel>) returns (k: nat)
    requires cands.Length > 0
    modifies cands
    ensures k <= cands.Length && cands[..] == old(cands[..])
    ensures cands[..k] == Lead(cands[..], cands[0].priority)
  {
    var maxP := cands[0].priority;
    ghost var before := cands[..];
    k := 0;
    for i := 0 to cands.Length
      invariant k == i && cands[..] == before
      invariant Lead(before, maxP) == before[..k] + Lead(before[k..], maxP)
    {
      var c := cands[i];
      assert before[i..][0] == c && before[i..][1..] == before[i + 1..];
      if c.priority == maxP {
        cands[k] := c;
        k := k + 1;
        assert before[..i + 1] == before[..i] + [c];
      } else {
        break;
      }
    }
    assert cands[..k] == before[..k];
    assert k == cands.Length ==> before[k..] == [];
  }

  // ----- The whole choice.

  method Filter(all: seq<Channel>, group: bytes, model: bytes, blocked: set<int>) returns (cands: seq<Channel>)
    ensures cands == Candidates(all, group, model, blocked)
  {
    cands := [];
    for i := 0 to |all|
      invariant cands == Candidates(all[..i], group, model, blocked)
    {
      CandidatesAppend(all[..i], [all[i]], group, model, blocked);
      assert all[..i + 1] == all[..i] + [all[i]];
      var c := all[i];
      if c.status != 1 || c.id in blocked {
        continue;
      }
      if c.group != group {
        continue;
      }
      if model != "" {
        var ok := SupportsModel(c, model);
        if !ok {
          continue;
        }
      }
      cands := cands + [c];
    }
    assert all[..|all|] == all;
  }

  method ChooseTop(cands: seq<Channel>) returns (top: seq<Channel>)
    requires cands != []
    ensures top == OfPriority(cands, MaxPriority(cands))
  {
    var sorted := SliceStable(cands);
    LeadOfSorted(sorted, cands);
    var backing := new Channel[|sorted|](i requires 0 <= i < |sorted| => sorted[i]);
    assert backing[..] == sorted;
    var k := TakeLead(backing);
    top := backing[..k];
  }

  lemma UniqueTail(all: seq<Channel>)
    requires UniqueIds(all) && all != []
    ensures UniqueIds(all[1..])
    ensures forall c :: c in all[1..] ==> c.id != all[0].id
  {
  }

  lemma UniqueCons(c: Channel, cs: seq<Channel>)
    requires UniqueIds(cs) && forall d :: d in cs ==> d.id != c.id
    ensures UniqueIds([c] + cs)
  {
    var more := [c] + cs;
    forall i, j | 0 <= i < j < |more|
      ensures more[i].id != more[j].id
    {
      assert more[j] in cs;
    }
  }

  lemma {:induction false} CandidatesAre(all: seq<Channel>, group: bytes, model: bytes, blocked: set<int>)
    requires UniqueIds(all)
    ensures var cs := Candidates(all, group, model, blocked);
            UniqueIds(cs) && forall c :: c in cs <==> c in all && Candidate(c, group, model, blocked)
  {
    if all == [] {
    } else {
      UniqueTail(all);
      CandidatesAre(all[1..], group, model, blocked);
      UniqueCons(all[0], Candidates(all[1..], group, model, blocked));
    }
  }

  lemma {:induction false} OfPriorityAre(cs: seq<Channel>, p: int)
    requires UniqueIds(cs)
    ensures var ps := OfPriority(cs, p);
            UniqueIds(ps) && forall c :: c in ps <==> c in cs && c.priority == p
  {
    if cs == [] {
    } else {
      UniqueTail(cs);
      OfPriorityAre(cs[1..], p);
      UniqueCons(cs[0], OfPriority(cs[1..], p));
    }
  }

  /**
    The chosen channels: exactly those that are enabled, not cooling down, in
    the group and support the model, and that no other such channel outranks,
    each once.
   */
  lemma TopIs(all: seq<Channel>, group: bytes, model: bytes, blocked: set<int>)
    requires UniqueIds(all)
    ensures var top := Top(all, group, model, blocked);
            && UniqueIds(top)
            && forall c :: c in top <==>
                 && c in all && c.status == 1 && c.id !in blocked && c.group == group
                 && (model == "" || c.models == "" || c.models == "*" || InList(c.models, model))
                 && forall d :: d in all && d.status == 1 && d.id !in blocked && d.group == group
                        && (model == "" || d.models == "" || d.models == "*" || InList(d.models, model))
                        ==> d.priority <= c.priority
  {
    TopAre(all, group, model, blocked);
    forall c
      ensures Candidate(c, group, model, blocked) <==>
              && c.status == 1 && c.id !in blocked && c.group == group
              && (model == "" || c.models == "" || c.models == "*" || InList(c.models, model))
    {
      SupportsMeans(c.models, model);
    }
  }

  /** `cs` is what stands at those places of `all`, from front to back. */
  predicate Picks(cs: seq<Channel>, all: seq<Channel>, places: seq<nat>) {
    && |places| == |cs|
    && (forall k :: 0 <= k < |cs| ==> places[k] < |all| && all[places[k]] == cs[k])
    && (forall k, l :: 0 <= k < l < |cs| ==> places[k] < places[l])
  }

  lemma PicksOneMore(cs: seq<Channel>, all: seq<Channel>, places: seq<nat>)
    requires all != [] && Picks(cs, all[1..], places)
    ensures Picks(cs, all, OneOn(places))
    ensures Picks([all[0]] + cs, all, [0] + OneOn(places))
  {
    assert forall k :: 0 <= k < |cs| ==> all[1..][places[k]] == all[places[k] + 1];
  }

  lemma {:induction false} CandidatesPicked(all: seq<Channel>, group: bytes, model: bytes, blocked: set<int>)
    returns (places: seq<nat>)
    ensures Picks(Candidates(all, group, model, blocked), all, places)
  {
    if all == [] {
      places := [];
    } else {
      var rest := CandidatesPicked(all[1..], group, model, blocked);
      PicksOneMore(Candidates(all[1..], group, model, blocked), all, rest);
      EmptyFirst(Candidates(all[1..], group, model, blocked));
      places := if Candidate(all[0], group, model, blocked) then [0] + OneOn(rest) else OneOn(rest);
    }
  }

  lemma {:induction false} OfPriorityPicked(cs: seq<Channel>, p: int) returns (places: seq<nat>)
    ensures Picks(OfPriority(cs, p), cs, places)
  {
    if cs == [] {
      places := [];
    } else {
      var rest := OfPriorityPicked(cs[1..], p);
      PicksOneMore(OfPriority(cs[1..], p), cs, rest);
      EmptyFirst(OfPriority(cs[1..], p));
      places := if cs[0].priority == p then [0] + OneOn(rest) else OneOn(rest);
    }
  }

  /** The chosen channels stand in the order of the store. */
  lemma TopPicked(all: seq<Channel>, group: bytes, model: bytes, blocked: set<int>) returns (places: seq<nat>)
    ensures var top := Top(all, group, model, blocked);
            && |places| == |top|
            && (forall k :: 0 <= k < |top| ==> places[k] < |all| && all[places[k]] == top[k])
            && (forall k, l :: 0 <= k < l < |top| ==> places[k] < places[l])
  {
    var cs := Candidates(all, group, model, blocked);
    if cs == [] {
      places := [];
    } else {
      var outer := CandidatesPicked(all, group, model, blocked);
      var inner := OfPriorityPicked(cs, MaxPriority(cs));
      places := seq(|inner|, k requires 0 <= k < |inner| => outer[inner[k]]);
    }
  }

  lemma TopAre(all: seq<Channel>, group: bytes, model: bytes, blocked: set<int>)
    requires UniqueIds(all)
    ensures var top := Top(all, group, model, blocked);
            && UniqueIds(top)
            && forall c :: c in top <==>
                 && c in all && Candidate(c, group, model, blocked)
                 && forall d :: d in all && Candidate(d, group, model, blocked) ==> d.priority <= c.priority
  {
    var cs := Candidates(all, group, model, blocked);
    CandidatesAre(all, group, model, blocked);
    if cs != [] {
      var m := MaxPriority(cs);
      OfPriorityAre(cs, m);
      MaxIsThere(cs);
      SomeOf(cs, m);
      forall d | d in cs
        ensures d.priority <= m
      {
        var i :| 0 <= i < |cs| && cs[i] == d;
      }
      var k :| 0 <= k < |cs| && cs[k].priority == m;
      assert cs[k] in cs;
    }
  }
}
