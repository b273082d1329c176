/**
  The weighted shuffle without replacement, and how often each order comes out
  of it.  The random draws are arguments.
 */
module Shuffle {
  import opened Channels
  import opened Sequences
  import Sums

  function Weight(c: Channel): (w: nat)
    ensures w >= 1
  {
    if c.weight <= 0 then 1 else c.weight
  }

  function Total(pool: seq<Channel>): nat {
    if pool == [] then 0 else Total(pool[..|pool| - 1]) + Weight(pool[|pool| - 1])
  }

  /** Where channel `i`'s share of the draws begins. */
  function Share(pool: seq<Channel>, i: nat): nat
    requires i <= |pool|
  {
    Total(pool[..i])
  }

  predicate Selects(pool: seq<Channel>, n: nat, i: nat) {
    i < |pool| && Share(pool, i) <= n < Share(pool, i + 1)
  }

  lemma ShareStep(pool: seq<Channel>, i: nat)
    requires i < |pool|
    ensures Share(pool, i + 1) == Share(pool, i) + Weight(pool[i])
  {
    assert pool[..i + 1][..i] == pool[..i];
  }

  lemma {:induction false} ShareMonotone(pool: seq<Channel>, i: nat, j: nat)
    requires i <= j <= |pool|
    ensures Share(pool, i) <= Share(pool, j)
    decreases j - i
  {
    if i == j {
    } else {
      ShareStep(pool, i);
      ShareMonotone(pool, i + 1, j);
    }
  }

  lemma SelectsOne(pool: seq<Channel>, n: nat, i: nat, j: nat)
    requires Selects(pool, n, i) && Selects(pool, n, j)
    ensures i == j
  {
    if i < j {
      ShareMonotone(pool, i + 1, j);
    } else if j < i {
      ShareMonotone(pool, j + 1, i);
    }
  }

  predicate From(lo: nat, n: nat) {
    lo <= n
  }

  lemma {:induction false} IntervalSize(lo: nat, hi: nat)
    requires lo <= hi
    ensures |set n: nat | 0 <= n < hi && From(lo, n)| == hi - lo
    decreases hi
  {
    var all := set n: nat | 0 <= n < hi && From(lo, n);
    if lo < hi {
      IntervalSize(lo, hi - 1);
      assert all == (set n: nat | 0 <= n < hi - 1 && From(lo, n)) + {hi - 1};
    } else {
      assert all == {};
    }
  }

  /** What a draw counts for: the channel's weight, if that is positive. */
  ghost predicate ByField(w: Channel -> int) {
    forall c :: w(c) == if c.weight > 0 then c.weight else 1
  }

  lemma {:induction false} TotalIs(pool: seq<Channel>, w: Channel -> int)
    requires ByField(w)
    ensures Total(pool) == Sums.Total(pool, w)
  {
    if pool == [] {
    } else {
      TotalIs(pool[..|pool| - 1], w);
    }
  }

  /**
    Of the draws of a round, as many as the channel's weight says select it,
    one if the weight is not positive.
   */
  lemma EachShareIsItsWeight(pool: seq<Channel>, i: nat, w: Channel -> int)
    requires i < |pool| && forall c :: w(c) == if c.weight > 0 then c.weight else 1
    ensures |set n: nat | 0 <= n < Sums.Total(pool, w) && Selects(pool, n, i)|
            == if pool[i].weight > 0 then pool[i].weight else 1
  {
    TotalIs(pool, w);
    var lo, hi := Share(pool, i), Share(pool, i + 1);
    ShareStep(pool, i);
    assert pool[..|pool|] == pool;
    ShareMonotone(pool, i + 1, |pool|);
    assert (set n: nat | 0 <= n < Total(pool) && Selects(pool, n, i)) == (set n: nat | 0 <= n < hi && From(lo, n));
    IntervalSize(lo, hi);
  }

  function Removed<T>(s: seq<T>, i: nat): seq<T>
    requires i < |s|
  {
    s[..i] + s[i + 1..]
  }

  lemma RemovedMultiset<T>(s: seq<T>, i: nat)
    requires i < |s|
    ensures multiset(s) == multiset{s[i]} + multiset(Removed(s, i))
  {
    assert s == s[..i] + [s[i]] + s[i + 1..];
  }

  /** The channel a draw selects. */
  function Select(pool: seq<Channel>, n: nat): (i: nat)
    requires n < Total(pool)
    ensures Selects(pool, n, i)
  {
    assert pool[..|pool|] == pool;
    SelectFrom(pool, n, |pool|)
  }

  function SelectFrom(pool: seq<Channel>, n: nat, k: nat): (i: nat)
    requires k <= |pool| && n < Share(pool, k)
    ensures Selects(pool, n, i)
  {
    ShareStep(pool, k - 1);
    if Share(pool, k - 1) <= n then k - 1 else SelectFrom(pool, n, k - 1)
  }

  lemma {:induction false} TotalPositive(pool: seq<Channel>)
    requires pool != []
    ensures Total(pool) > 0
  {
  }

  /** The order a list of draws produces; each draw is taken modulo the round's total. */
  function Shuffled(pool: seq<Channel>, draws: seq<nat>): seq<Channel>
    requires |draws| >= |pool|
    decreases |pool|
  {
    if pool == [] then []
    else
      TotalPositive(pool);
      var i := Select(pool, draws[0] % Total(pool));
      [pool[i]] + Shuffled(Removed(pool, i), draws[1..])
  }

  lemma {:induction false} ShuffledIsPermutation(pool: seq<Channel>, draws: seq<nat>)
    requires |draws| >= |pool|
    ensures multiset(Shuffled(pool, draws)) == multiset(pool)
    ensures |Shuffled(pool, draws)| == |pool|
    decreases |pool|
  {
    if pool == [] {
    } else {
      TotalPositive(pool);
      var i := Select(pool, draws[0] % Total(pool));
      ShuffledIsPermutation(Removed(pool, i), draws[1..]);
      RemovedMultiset(pool, i);
    }
  }

  lemma ShuffledStep(pool: seq<Channel>, draws: seq<nat>, round: nat)
    requires pool != [] && round + |pool| <= |draws|
    ensures Total(pool) > 0
    ensures var i := Select(pool, draws[round] % Total(pool));
            Shuffled(pool, draws[round..]) == [pool[i]] + Shuffled(Removed(pool, i), draws[round + 1..])
  {
    TotalPositive(pool);
    assert draws[round..][0] == draws[round] && draws[round..][1..] == draws[round + 1..];
  }

  /** Walks the shares until the running total passes the draw. */
  method Draw(pool: seq<Channel>, n: nat) returns (i: nat)
    requires n < Total(pool)
    ensures i < |pool| && i == Select(pool, n)
  {
    var acc := 0;
    i := 0;
    assert pool[..|pool|] == pool;
    while true
      invariant 0 <= i < |pool| && acc == Share(pool, i) && acc <= n
      decreases |pool| - i
    {
      ShareStep(pool, i);
      acc := acc + Weight(pool[i]);
      if n < acc {
        break;
      }
      i := i + 1;
    }
    SelectsOne(pool, n, i, Select(pool, n));
  }

  method WeightedShuffle(channels: seq<Channel>, draws: seq<nat>) returns (out: seq<Channel>)
    requires |draws| >= |channels|
    ensures out == Shuffled(channels, draws)
  {
    var pool := channels;
    out := [];
    var round := 0;
    while |pool| > 0
      invariant round + |pool| == |channels|
      invariant out + Shuffled(pool, draws[round..]) == Shuffled(channels, draws)
      decreases |pool|
    {
      var total := SumWeights(pool);
      TotalPositive(pool);
      var i := Draw(pool, draws[round] % total);
      ShuffledStep(pool, draws, round);
      assert pool[..i] + pool[i + 1..] == Removed(pool, i);
      Associates(out, [pool[i]], Shuffled(Removed(pool, i), draws[round + 1..]));
      out := out + [pool[i]];
      pool := pool[..i] + pool[i + 1..];
      round := round + 1;
    }
  }

  method SumWeights(pool: seq<Channel>) returns (total: nat)
    ensures total == Total(pool)
  {
    total := 0;
    for i := 0 to |pool|
      invariant total == Share(pool, i)
    {
      ShareStep(pool, i);
      var w := pool[i].weight;
      if w <= 0 {
        w := 1;
      }
      total := total + w;
    }
    assert pool[..|pool|] == pool;
  }

  // ----- How often each order comes out.

  /** One draw a round, each below that round's total. */
  predicate InRange(pool: seq<Channel>, draws: seq<nat>)
    decreases |pool|
  {
    && |draws| == |pool|
    && (pool == [] || (draws[0] < Total(pool) && InRange(Removed(pool, Select(pool, draws[0])), draws[1..])))
  }

  ghost function Prefixed(n: nat, lists: set<seq<nat>>): set<seq<nat>> {
    set ds | ds in lists :: [n] + ds
  }

  /** All draw lists in range: `DrawListsAre` says so. */
  ghost function DrawLists(pool: seq<Channel>): (lists: set<seq<nat>>)
    ensures forall ds :: ds in lists ==> |ds| == |pool|
    decreases |pool|
  {
    if pool == [] then {[]}
    else set n: nat, ds | n < Total(pool) && ds in DrawLists(Removed(pool, Select(pool, n))) :: [n] + ds
  }

  lemma FirstDraw(pool: seq<Channel>, draws: seq<nat>)
    requires pool != [] && draws in DrawLists(pool)
    ensures draws != [] && draws[0] < Total(pool)
    ensures draws[1..] in DrawLists(Removed(pool, Select(pool, draws[0])))
  {
    var n: nat, ds :| n < Total(pool) && ds in DrawLists(Removed(pool, Select(pool, n))) && draws == [n] + ds;
    assert draws[0] == n && draws[1..] == ds;
  }

  lemma DrawBefore(pool: seq<Channel>, draws: seq<nat>)
    requires pool != [] && draws != [] && draws[0] < Total(pool)
    requires draws[1..] in DrawLists(Removed(pool, Select(pool, draws[0])))
    ensures draws in DrawLists(pool)
  {
    assert draws == [draws[0]] + draws[1..];
  }

  lemma ByFirstDraw(pool: seq<Channel>, draws: seq<nat>)
    requires pool != []
    ensures draws in DrawLists(pool)
            <==> draws != [] && draws[0] < Total(pool)
                 && draws[1..] in DrawLists(Removed(pool, Select(pool, draws[0])))
  {
    if draws in DrawLists(pool) {
      FirstDraw(pool, draws);
    }
    if draws != [] && draws[0] < Total(pool) && draws[1..] in DrawLists(Removed(pool, Select(pool, draws[0]))) {
      DrawBefore(pool, draws);
    }
  }

  lemma {:induction false} DrawListsAre(pool: seq<Channel>, draws: seq<nat>)
    ensures draws in DrawLists(pool) <==> InRange(pool, draws)
    decreases |pool|
  {
    if pool == [] {
    } else {
      ByFirstDraw(pool, draws);
      if draws != [] && draws[0] < Total(pool) {
        DrawListsAre(Removed(pool, Select(pool, draws[0])), draws[1..]);
      }
    }
  }

  /** The draw lists in range that give `order`. */
  ghost function Giving(pool: seq<Channel>, order: seq<Channel>): set<seq<nat>> {
    set ds | ds in DrawLists(pool) && Shuffled(pool, ds) == order
  }

  /** Those whose first draw is below `m`. */
  ghost function GivingBelow(pool: seq<Channel>, order: seq<Channel>, m: nat): set<seq<nat>>
    requires pool != []
  {
    set ds | ds in Giving(pool, order) && ds[0] < m
  }

  lemma {:induction false} PrefixedSize(n: nat, lists: set<seq<nat>>)
    ensures |Prefixed(n, lists)| == |lists|
  {
    if lists == {} {
      assert Prefixed(n, lists) == {};
    } else {
      var ds :| ds in lists;
      PrefixedSize(n, lists - {ds});
      assert ([n] + ds)[1..] == ds;
      assert forall other :: other in lists - {ds} ==> ([n] + other)[1..] == other;
      assert Prefixed(n, lists) == Prefixed(n, lists - {ds}) + {[n] + ds};
      assert [n] + ds !in Prefixed(n, lists - {ds});
    }
  }

  lemma PrefixedIn(n: nat, lists: set<seq<nat>>, draws: seq<nat>)
    ensures draws in Prefixed(n, lists) <==> draws != [] && draws[0] == n && draws[1..] in lists
  {
    if draws in Prefixed(n, lists) {
      var ds :| ds in lists && draws == [n] + ds;
      assert draws[1..] == ds;
    }
    if draws != [] && draws[0] == n {
      assert draws == [n] + draws[1..];
    }
  }

  lemma HeadAndTail<T>(x: T, xs: seq<T>, s: seq<T>)
    requires s != []
    ensures [x] + xs == s <==> x == s[0] && xs == s[1..]
  {
    assert ([x] + xs)[1..] == xs && s == [s[0]] + s[1..];
  }

  lemma SmallRemainder(n: nat, m: nat)
    requires n < m
    ensures n % m == n
  {
  }

  /** A list gives `order` when its first draw selects the first channel and the others give the rest. */
  lemma GivingStep(pool: seq<Channel>, order: seq<Channel>, draws: seq<nat>)
    requires pool != [] && |order| == |pool|
    ensures draws in Giving(pool, order)
            <==> draws != [] && draws[0] < Total(pool)
                 && var i := Select(pool, draws[0]);
                    pool[i] == order[0] && draws[1..] in Giving(Removed(pool, i), order[1..])
  {
    ByFirstDraw(pool, draws);
    if draws in DrawLists(pool) {
      var i := Select(pool, draws[0]);
      SmallRemainder(draws[0], Total(pool));
      HeadAndTail(pool[i], Shuffled(Removed(pool, i), draws[1..]), order);
    }
  }

  /** How many draws below `m` fall in channel `i`'s share. */
  function Hits(pool: seq<Channel>, i: nat, m: nat): nat
    requires i < |pool|
  {
    if m <= Share(pool, i) then 0
    else if m <= Share(pool, i) + Weight(pool[i]) then m - Share(pool, i)
    else Weight(pool[i])
  }

  /** Each of the draws below `m` that fall in channel `k`'s share goes on in the same number of ways. */
  ghost predicate Counted(pool: seq<Channel>, order: seq<Channel>, m: nat, k: nat)
    requires |pool| == |order| && k < |pool|
  {
    |GivingBelow(pool, order, m)| == Hits(pool, k, m) * |Giving(Removed(pool, k), order[1..])|
  }

  lemma GivingBelowCounts(pool: seq<Channel>, order: seq<Channel>, m: nat, k: nat)
    requires |pool| == |order| && k < |pool| && m <= Total(pool)
    requires UniqueIds(pool) && pool[k] == order[0]
    ensures Counted(pool, order, m, k)
  {
    NoDraws(pool, order, k);
    for n := 0 to m
      invariant Counted(pool, order, n, k)
    {
      NextCount(pool, order, n, k);
    }
  }

  lemma NoDraws(pool: seq<Channel>, order: seq<Channel>, k: nat)
    requires |pool| == |order| && k < |pool|
    ensures Counted(pool, order, 0, k)
  {
    assert GivingBelow(pool, order, 0) == {};
    assert Hits(pool, k, 0) == 0;
  }

  lemma NextCount(pool: seq<Channel>, order: seq<Channel>, n: nat, k: nat)
    requires |pool| == |order| && k < |pool| && n < Total(pool)
    requires UniqueIds(pool) && pool[k] == order[0]
    requires Counted(pool, order, n, k)
    ensures Counted(pool, order, n + 1, k)
  {
    OneDrawMore(pool, order, n, k);
    HitsStep(pool, k, n);
    OnceMore(|GivingBelow(pool, order, n)|, |GivingBelow(pool, order, n + 1)|, Hits(pool, k, n), Hits(pool, k, n + 1),
             |Giving(Removed(pool, k), order[1..])|, Selects(pool, n, k));
  }

  /** The lists that give `order` and whose first draw is `n`. */
  lemma GivingFrom(pool: seq<Channel>, order: seq<Channel>, n: nat, k: nat, ds: seq<nat>)
    requires |pool| == |order| && k < |pool| && n < Total(pool)
    requires UniqueIds(pool) && pool[k] == order[0]
    ensures ds in Giving(pool, order) && ds[0] == n
            <==> ds != [] && ds[0] == n && Selects(pool, n, k) && ds[1..] in Giving(Removed(pool, k), order[1..])
  {
    DrawMatches(pool, n, k);
    GivingStep(pool, order, ds);
  }

  lemma BelowIn(pool: seq<Channel>, order: seq<Channel>, m: nat, ds: seq<nat>)
    requires pool != []
    ensures ds in GivingBelow(pool, order, m) <==> ds in Giving(pool, order) && ds[0] < m
  {
  }

  ghost function Tails(pool: seq<Channel>, order: seq<Channel>, n: nat, k: nat): set<seq<nat>>
    requires |pool| == |order| && k < |pool|
  {
    if Selects(pool, n, k) then Giving(Removed(pool, k), order[1..]) else {}
  }

  lemma OneDrawMoreGives(pool: seq<Channel>, order: seq<Channel>, n: nat, k: nat, ds: seq<nat>)
    requires |pool| == |order| && k < |pool| && n < Total(pool)
    requires UniqueIds(pool) && pool[k] == order[0]
    ensures ds in GivingBelow(pool, order, n + 1)
            <==> ds in GivingBelow(pool, order, n) || ds in Prefixed(n, Tails(pool, order, n, k))
    ensures !(ds in GivingBelow(pool, order, n) && ds in Prefixed(n, Tails(pool, order, n, k)))
  {
    BelowIn(pool, order, n, ds);
    BelowIn(pool, order, n + 1, ds);
    PrefixedIn(n, Tails(pool, order, n, k), ds);
    GivingFrom(pool, order, n, k, ds);
  }

  lemma OneDrawMore(pool: seq<Channel>, order: seq<Channel>, n: nat, k: nat)
    requires |pool| == |order| && k < |pool| && n < Total(pool)
    requires UniqueIds(pool) && pool[k] == order[0]
    ensures |GivingBelow(pool, order, n + 1)|
            == |GivingBelow(pool, order, n)| + if Selects(pool, n, k) then |Giving(Removed(pool, k), order[1..])| else 0
  {
    var tails := Tails(pool, order, n, k);
    forall ds
      ensures ds in GivingBelow(pool, order, n + 1)
              <==> ds in GivingBelow(pool, order, n) || ds in Prefixed(n, tails)
      ensures !(ds in GivingBelow(pool, order, n) && ds in Prefixed(n, tails))
    {
      OneDrawMoreGives(pool, order, n, k, ds);
    }
    PrefixedSize(n, tails);
    UnionSize(GivingBelow(pool, order, n), Prefixed(n, tails), GivingBelow(pool, order, n + 1));
  }

  lemma UnionSize<T>(a: set<T>, b: set<T>, both: set<T>)
    requires forall x :: x in both <==> x in a || x in b
    requires forall x :: !(x in a && x in b)
    ensures |both| == |a| + |b|
  {
    assert both == a + b && a !! b;
  }

  /** With distinct ids a draw yields channel `k` exactly when it falls in its share. */
  lemma DrawMatches(pool: seq<Channel>, n: nat, k: nat)
    requires UniqueIds(pool) && k < |pool| && n < Total(pool)
    ensures pool[Select(pool, n)] == pool[k] <==> Select(pool, n) == k
    ensures Selects(pool, n, k) <==> Select(pool, n) == k
  {
    var i := Select(pool, n);
    if Selects(pool, n, k) {
      SelectsOne(pool, n, i, k);
    }
    assert i != k ==> pool[i].id != pool[k].id;
  }

  lemma OnceMore(w: nat, w': nat, h: nat, h': nat, each: nat, hit: bool)
    requires w == h * each && w' == w + (if hit then each else 0) && h' == h + (if hit then 1 else 0)
    ensures w' == h' * each
  {
  }

  lemma HitsStep(pool: seq<Channel>, k: nat, n: nat)
    requires k < |pool|
    ensures Hits(pool, k, n + 1) == Hits(pool, k, n) + if Selects(pool, n, k) then 1 else 0
  {
    ShareStep(pool, k);
  }

  lemma RemovedDistinct(pool: seq<Channel>, k: nat)
    requires UniqueIds(pool) && k < |pool|
    ensures UniqueIds(Removed(pool, k))
  {
  }

  // ----- In terms of the weights.

  lemma TotalAfter(pool: seq<Channel>, i: nat, w: Channel -> int)
    requires i < |pool| && ByField(w)
    ensures Sums.Total(Removed(pool, i), w) == Sums.Total(pool, w) - w(pool[i])
  {
    Sums.TotalSplit(pool, i, w);
  }

  lemma {:induction false} TotalShuffled(pool: seq<Channel>, draws: seq<nat>, w: Channel -> int)
    requires |draws| >= |pool| && ByField(w)
    ensures Sums.Total(Shuffled(pool, draws), w) == Sums.Total(pool, w)
    decreases |pool|
  {
    if pool == [] {
    } else {
      TotalPositive(pool);
      var i := Select(pool, draws[0] % Total(pool));
      var rest := Shuffled(Removed(pool, i), draws[1..]);
      TotalShuffled(Removed(pool, i), draws[1..], w);
      TotalAfter(pool, i, w);
      Sums.TotalJoin([pool[i]], rest, w);
      Sums.TotalPush([], pool[i], w);
      assert [] + [pool[i]] == [pool[i]];
    }
  }

  /**
    A shuffle begins with the channel in whose share of the total weight the
    first draw falls, and goes on without it.
   */
  lemma FirstOut(pool: seq<Channel>, draws: seq<nat>, w: Channel -> int) returns (i: nat)
    requires |draws| >= |pool| > 0
    requires forall c :: w(c) == if c.weight > 0 then c.weight else 1
    ensures i < |pool| && Sums.Total(pool, w) > 0
    ensures Sums.Total(pool[..i], w) <= draws[0] % Sums.Total(pool, w) < Sums.Total(pool[..i + 1], w)
    ensures Shuffled(pool, draws) == [pool[i]] + Shuffled(pool[..i] + pool[i + 1..], draws[1..])
  {
    TotalPositive(pool);
    TotalIs(pool, w);
    i := Select(pool, draws[0] % Total(pool));
    TotalIs(pool[..i], w);
    TotalIs(pool[..i + 1], w);
  }

  /** Each draw is below the weight of what is still to be drawn. */
  ghost predicate Below(order: seq<Channel>, draws: seq<nat>, w: Channel -> int)
    requires |order| == |draws|
  {
    forall r :: 0 <= r < |draws| ==> draws[r] < Sums.Total(order[r..], w)
  }

  lemma BelowStep(order: seq<Channel>, draws: seq<nat>, w: Channel -> int)
    requires |order| == |draws| > 0
    ensures Below(order, draws, w) <==> draws[0] < Sums.Total(order, w) && Below(order[1..], draws[1..], w)
  {
    var rest, tail := order[1..], draws[1..];
    assert order[0..] == order;
    assert forall r :: 0 <= r < |rest| ==> rest[r..] == order[r + 1..] && tail[r] == draws[r + 1];
    if draws[0] < Sums.Total(order, w) && Below(rest, tail, w) {
      forall r | 0 <= r < |draws|
        ensures draws[r] < Sums.Total(order[r..], w)
      {
        if r > 0 {
          assert tail[r - 1] < Sums.Total(rest[r - 1..], w);
        }
      }
    }
    if Below(order, draws, w) {
      forall r | 0 <= r < |tail|
        ensures tail[r] < Sums.Total(rest[r..], w)
      {
        assert draws[r + 1] < Sums.Total(order[r + 1..], w);
      }
    }
  }

  lemma {:induction false} InRangeMeans(pool: seq<Channel>, draws: seq<nat>, w: Channel -> int)
    requires |draws| == |pool| && ByField(w)
    ensures |Shuffled(pool, draws)| == |pool|
    ensures InRange(pool, draws) <==> Below(Shuffled(pool, draws), draws, w)
    decreases |pool|
  {
    ShuffledIsPermutation(pool, draws);
    if pool == [] {
    } else {
      TotalPositive(pool);
      TotalIs(pool, w);
      TotalShuffled(pool, draws, w);
      BelowStep(Shuffled(pool, draws), draws, w);
      if draws[0] < Total(pool) {
        SmallRemainder(draws[0], Total(pool));
        InRangeMeans(Removed(pool, Select(pool, draws[0])), draws[1..], w);
      }
    }
  }

  lemma GivingMeans(pool: seq<Channel>, order: seq<Channel>, ds: seq<nat>, w: Channel -> int)
    requires |order| == |pool| && ByField(w)
    ensures ds in Giving(pool, order)
            <==> |ds| == |pool| && Shuffled(pool, ds) == order && Below(order, ds, w)
  {
    DrawListsAre(pool, ds);
    if |ds| == |pool| {
      InRangeMeans(pool, ds, w);
    }
  }

  /**
    Of the lists of draws that are each below the weight of the channels not
    drawn yet, exactly the product of the weights many make the shuffle return
    any given order of the channels.
   */
  lemma OrdersByWeight(pool: seq<Channel>, order: seq<Channel>, w: Channel -> int)
    requires UniqueIds(pool) && multiset(order) == multiset(pool)
    requires forall c :: w(c) == if c.weight > 0 then c.weight else 1
    ensures |Giving(pool, order)| == Sums.Times(order, w)
    ensures forall ds :: ds in Giving(pool, order) <==>
              && |ds| == |pool| == |order| && Shuffled(pool, ds) == order
              && forall r :: 0 <= r < |ds| ==> ds[r] < Sums.Total(order[r..], w)
  {
    GivingSize(pool, order, w);
    SameSize(pool, order);
    forall ds
      ensures ds in Giving(pool, order) <==>
                && |ds| == |pool| == |order| && Shuffled(pool, ds) == order
                && forall r :: 0 <= r < |ds| ==> ds[r] < Sums.Total(order[r..], w)
    {
      GivingMeans(pool, order, ds, w);
    }
  }

  lemma {:induction false} GivingSize(pool: seq<Channel>, order: seq<Channel>, w: Channel -> int)
    requires UniqueIds(pool) && multiset(order) == multiset(pool) && ByField(w)
    ensures |Giving(pool, order)| == Sums.Times(order, w)
    decreases |pool|
  {
    SameSize(pool, order);
    if pool == [] {
      assert Giving(pool, order) == {[]};
    } else {
      assert order[0] in multiset(order) && order[0] in multiset(pool);
      var k :| 0 <= k < |pool| && pool[k] == order[0];
      NextRound(pool, order, k);
      GivingSize(Removed(pool, k), order[1..], w);
      GivingBelowCounts(pool, order, Total(pool), k);
      AllHits(pool, k);
      AllBelow(pool, order);
    }
  }

  lemma AllBelow(pool: seq<Channel>, order: seq<Channel>)
    requires pool != [] && |order| == |pool|
    ensures GivingBelow(pool, order, Total(pool)) == Giving(pool, order)
  {
    forall ds | ds in Giving(pool, order)
      ensures ds in GivingBelow(pool, order, Total(pool))
    {
      GivingStep(pool, order, ds);
    }
  }

  lemma NextRound(pool: seq<Channel>, order: seq<Channel>, k: nat)
    requires UniqueIds(pool) && multiset(order) == multiset(pool)
    requires k < |pool| && order != [] && pool[k] == order[0]
    ensures UniqueIds(Removed(pool, k)) && multiset(order[1..]) == multiset(Removed(pool, k))
  {
    RemovedMultiset(pool, k);
    RemovedMultiset(order, 0);
    assert Removed(order, 0) == order[1..];
    assert multiset(Removed(pool, k)) == multiset(pool) - multiset{order[0]} == multiset(order[1..]);
    RemovedDistinct(pool, k);
  }

  lemma SameSize<T>(a: seq<T>, b: seq<T>)
    requires multiset(a) == multiset(b)
    ensures |a| == |b|
  {
    assert |multiset(a)| == |a| && |multiset(b)| == |b|;
  }

  lemma AllHits(pool: seq<Channel>, k: nat)
    requires k < |pool|
    ensures Hits(pool, k, Total(pool)) == Weight(pool[k])
  {
    ShareStep(pool, k);
    ShareMonotone(pool, k + 1, |pool|);
    assert pool[..|pool|] == pool;
  }
}
