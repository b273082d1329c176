/**
  The list of places a relayed request is tried at: one block of keys per
  chosen channel, each block rotated, and the affine channel's block first.
 */
module Targets {
  import opened Bytes
  import opened Channels
  import opened Candidacy
  import opened Shuffle
  import opened Rotation
  import opened Sequences

  datatype Target = Target(channel: Channel, key: bytes)

  // ----- Blocks.

  function Rotated<T>(s: seq<T>, from: nat): seq<T>
    requires s != []
  {
    s[from % |s|..] + s[..from % |s|]
  }

  /** The targets of a channel in the order its keys are tried. */
  function WithKeys(c: Channel, keys: seq<bytes>): seq<Target> {
    seq(|keys|, i requires 0 <= i < |keys| => Target(c, keys[i]))
  }

  /** One block: the channel's keys rotated, or a single target without a key. */
  function Block(c: Channel, idx: nat): (b: seq<Target>)
    ensures b != []
  {
    var keys := Keys(c.keys);
    if keys == [] then [Target(c, "")] else WithKeys(c, Rotated(keys, idx))
  }

  function Blocks(order: seq<Channel>, counters: map<int, nat>): seq<Target> {
    if order == [] then []
    else Blocks(order[..|order| - 1], counters) + Block(order[|order| - 1], Asked(counters, order[|order| - 1].id))
  }

  /** The counters after a build: one more for every channel with keys. */
  function Bumped(order: seq<Channel>, counters: map<int, nat>): map<int, nat> {
    if order == [] then counters
    else
      var before := Bumped(order[..|order| - 1], counters);
      var c := order[|order| - 1];
      if Keys(c.keys) == [] then before else before[c.id := CountAfter(before, c.id, RelayBuild)]
  }

  lemma {:induction false} BumpedElsewhere(order: seq<Channel>, counters: map<int, nat>, id: int)
    requires forall i :: 0 <= i < |order| ==> order[i].id != id
    ensures Asked(Bumped(order, counters), id) == Asked(counters, id)
    ensures id in Bumped(order, counters) <==> id in counters
  {
    if order == [] {
    } else {
      BumpedElsewhere(order[..|order| - 1], counters, id);
    }
  }

  // ----- What a built list is, in terms of positions.

  /** The channel's targets, in order: its keys from the counter on, round to where they began. */
  ghost predicate KeysInTurn(targets: seq<Target>, c: Channel, idx: nat) {
    var own, keys := Having(targets, c.id), Keys(c.keys);
    if keys == [] then own == [Target(c, "")]
    else |own| == |keys| && forall j :: 0 <= j < |keys| ==> own[j] == Target(c, keys[(idx + j) % |keys|])
  }

  /** Each chosen channel's keys in turn, from its counter, or from the first one without a counter. */
  ghost predicate TakesTurns(targets: seq<Target>, chosen: seq<Channel>, counters: map<int, nat>) {
    && (forall c :: c in chosen ==> KeysInTurn(targets, c, if c.id in counters then counters[c.id] else 0))
    && (forall t :: t in targets ==> t.channel in chosen)
  }

  /** Targets stand in the order of their channels. */
  ghost predicate InOrder(targets: seq<Target>, order: seq<Channel>) {
    forall p, q, a, b :: 0 <= p < q < |targets| && 0 <= a < |order| && 0 <= b < |order|
                         && targets[p].channel == order[a] && targets[q].channel == order[b]
                         ==> a <= b
  }

  /** Every chosen channel with keys is counted once more, a new counter starts at 0, no other counter changes. */
  ghost predicate Counts(before: map<int, nat>, after: map<int, nat>, chosen: seq<Channel>) {
    && (forall c :: c in chosen && Keys(c.keys) != [] ==>
          c.id in after && after[c.id] == if c.id in before then before[c.id] + 1 else 0)
    && (forall id :: (forall c :: c in chosen && Keys(c.keys) != [] ==> c.id != id) ==>
          (id in after <==> id in before) && (id in before ==> after[id] == before[id]))
  }

  lemma BlockInTurn(c: Channel, idx: nat)
    ensures KeysInTurn(Block(c, idx), c, idx)
  {
    var keys := Keys(c.keys);
    AllHaving(Block(c, idx), c.id);
    if keys != [] {
      forall j | 0 <= j < |keys|
        ensures Block(c, idx)[j] == Target(c, keys[(idx + j) % |keys|])
      {
        RotatedAt(keys, idx, j);
      }
    }
  }

  lemma {:induction false} AllHaving(targets: seq<Target>, id: int)
    requires forall i :: 0 <= i < |targets| ==> targets[i].channel.id == id
    ensures Having(targets, id) == targets && Lacking(targets, id) == []
  {
    if targets == [] {
    } else {
      AllHaving(targets[1..], id);
    }
  }

  lemma LastApart(order: seq<Channel>)
    requires UniqueIds(order) && order != []
    ensures var before, last := order[..|order| - 1], order[|order| - 1];
            && order == before + [last] && UniqueIds(before) && last !in before
            && forall d :: d in before ==> d.id != last.id
  {
  }

  lemma {:induction false} HavingBlocks(order: seq<Channel>, counters: map<int, nat>, c: Channel)
    requires UniqueIds(order) && c in order
    ensures Having(Blocks(order, counters), c.id) == Block(c, Asked(counters, c.id))
  {
    var before, last := order[..|order| - 1], order[|order| - 1];
    var b := Block(last, Asked(counters, last.id));
    LastApart(order);
    BlockIds(last, Asked(counters, last.id));
    BlocksContiguous(before, counters);
    HavingAppend(Blocks(before, counters), b, c.id);
    if c == last {
      AllHaving(b, c.id);
      NoneHaving(Blocks(before, counters), c.id);
      EmptyFirst(b);
    } else {
      assert c in before && c.id != last.id;
      HavingBlocks(before, counters, c);
      NoneHaving(b, c.id);
      assert Block(c, Asked(counters, c.id)) + [] == Block(c, Asked(counters, c.id));
    }
  }

  lemma {:induction false} BlocksInOrder(order: seq<Channel>, counters: map<int, nat>)
    requires UniqueIds(order)
    ensures InOrder(Blocks(order, counters), order)
  {
    if order == [] {
    } else {
      var before, last := order[..|order| - 1], order[|order| - 1];
      var front, b := Blocks(before, counters), Block(last, Asked(counters, last.id));
      LastApart(order);
      BlocksInOrder(before, counters);
      BlocksContiguous(before, counters);
      BlockIds(last, Asked(counters, last.id));
      BlockAtEnd(front, b, before, last);
    }
  }

  lemma BlockAtEnd(front: seq<Target>, b: seq<Target>, before: seq<Channel>, last: Channel)
    requires InOrder(front, before) && last !in before
    requires forall i :: 0 <= i < |front| ==> front[i].channel in before
    requires forall i :: 0 <= i < |b| ==> b[i].channel == last
    ensures InOrder(front + b, before + [last])
  {
    var targets, order := front + b, before + [last];
    forall p, q, x, y | 0 <= p < q < |targets| && 0 <= x < |order| && 0 <= y < |order|
                        && targets[p].channel == order[x] && targets[q].channel == order[y]
      ensures x <= y
    {
      if q < |front| {
        assert front[p].channel == before[x] && front[q].channel == before[y];
      } else {
        assert targets[q].channel == last;
        assert y == |before|;
      }
    }
  }

  lemma CountsOneMore(counters: map<int, nat>, mid: map<int, nat>, before: seq<Channel>, last: Channel)
    requires Counts(counters, mid, before) && forall d :: d in before ==> d.id != last.id
    ensures Counts(counters,
                   if Keys(last.keys) == [] then mid else mid[last.id := CountAfter(mid, last.id, RelayBuild)],
                   before + [last])
  {
    var chosen := before + [last];
    assert last.id in mid <==> last.id in counters;
    assert forall c :: c in chosen <==> c in before || c == last;
    if Keys(last.keys) != [] {
      CountsKeyed(counters, mid, before, last, mid[last.id := CountAfter(mid, last.id, RelayBuild)]);
    }
  }

  lemma CountsKeyed(counters: map<int, nat>, mid: map<int, nat>, before: seq<Channel>, last: Channel,
                    after: map<int, nat>)
    requires Counts(counters, mid, before) && forall d :: d in before ==> d.id != last.id
    requires Keys(last.keys) != [] && (last.id in mid <==> last.id in counters)
    requires after == mid[last.id := if last.id in mid then mid[last.id] + 1 else 0]
    requires last.id in counters ==> mid[last.id] == counters[last.id]
    ensures Counts(counters, after, before + [last])
  {
    var chosen := before + [last];
    assert forall c :: c in chosen <==> c in before || c == last;
    forall id | forall c :: c in chosen && Keys(c.keys) != [] ==> c.id != id
      ensures (id in after <==> id in counters) && (id in counters ==> after[id] == counters[id])
    {
      assert last in chosen && id != last.id;
    }
  }

  lemma {:induction false} BumpedCounts(order: seq<Channel>, counters: map<int, nat>)
    requires UniqueIds(order)
    ensures Counts(counters, Bumped(order, counters), order)
  {
    if order == [] {
    } else {
      var before, last := order[..|order| - 1], order[|order| - 1];
      LastApart(order);
      BumpedCounts(before, counters);
      CountsOneMore(counters, Bumped(before, counters), before, last);
    }
  }

  /** All of that for the channels in any order they are shuffled into. */
  lemma BuiltAre(chosen: seq<Channel>, order: seq<Channel>, counters: map<int, nat>)
    requires UniqueIds(order) && multiset(order) == multiset(chosen)
    ensures TakesTurns(Blocks(order, counters), chosen, counters)
    ensures InOrder(Blocks(order, counters), order)
    ensures Counts(counters, Bumped(order, counters), chosen)
  {
    forall c
      ensures c in chosen <==> c in order
    {
      assert c in chosen <==> c in multiset(chosen);
      assert c in order <==> c in multiset(order);
    }
    forall c | c in chosen
      ensures KeysInTurn(Blocks(order, counters), c, Asked(counters, c.id))
    {
      HavingBlocks(order, counters, c);
      BlockInTurn(c, Asked(counters, c.id));
      AllHaving(Block(c, Asked(counters, c.id)), c.id);
    }
    BlocksContiguous(order, counters);
    BlocksInOrder(order, counters);
    BumpedCounts(order, counters);
  }

  method BuildTargets(all: seq<Channel>, group: bytes, model: bytes, blocked: set<int>,
                      rotation: KeyCounters, draws: seq<nat>) returns (targets: seq<Target>)
    requires UniqueIds(all) && |draws| >= |all|
    modifies rotation
    ensures var order := Shuffled(Top(all, group, model, blocked), draws);
            && targets == Blocks(order, old(rotation.counters))
            && rotation.counters == Bumped(order, old(rotation.counters))
            && InOrder(targets, order)
    ensures TakesTurns(targets, Top(all, group, model, blocked), old(rotation.counters))
    ensures Counts(old(rotation.counters), rotation.counters, Top(all, group, model, blocked))
  {
    OrderIs(all, group, model, blocked, draws);
    BuiltAre(Top(all, group, model, blocked), Shuffled(Top(all, group, model, blocked), draws), rotation.counters);
    var cands := Filter(all, group, model, blocked);
    if |cands| == 0 {
      return [];
    }
    var top := ChooseTop(cands);
    var order := WeightedShuffle(top, draws);
    targets := Expand(order, rotation);
  }

  /** Each chosen channel's keys, from where its counter stands. */
  method Expand(order: seq<Channel>, rotation: KeyCounters) returns (targets: seq<Target>)
    requires UniqueIds(order)
    modifies rotation
    ensures targets == Blocks(order, old(rotation.counters))
    ensures rotation.counters == Bumped(order, old(rotation.counters))
  {
    targets := [];
    for i := 0 to |order|
      invariant targets == Blocks(order[..i], old(rotation.counters))
      invariant rotation.counters == Bumped(order[..i], old(rotation.counters))
    {
      assert order[..i + 1][..i] == order[..i];
      var c := order[i];
      BumpedElsewhere(order[..i], old(rotation.counters), c.id);
      var block := ExpandOne(c, rotation);
      targets := targets + block;
    }
    assert order[..|order|] == order;
  }

  /** One channel's targets; without keys it has one and asks for no turn. */
  method ExpandOne(c: Channel, rotation: KeyCounters) returns (block: seq<Target>)
    modifies rotation
    ensures block == Block(c, Asked(old(rotation.counters), c.id))
    ensures var before := old(rotation.counters);
            rotation.counters
            == if Keys(c.keys) == [] then before else before[c.id := CountAfter(before, c.id, RelayBuild)]
  {
    var keys := KeyList(c);
    if |keys| == 0 {
      return [Target(c, "")];
    }
    var idx := rotation.NextForChannel(c.id);
    block := TryOrder(c, keys, idx);
  }

  method TryOrder(c: Channel, keys: seq<bytes>, idx: nat) returns (block: seq<Target>)
    requires keys != []
    ensures block == WithKeys(c, Rotated(keys, idx))
  {
    block := [];
    for j := 0 to |keys|
      invariant |block| == j
      invariant forall k :: 0 <= k < j ==> block[k] == Target(c, Rotated(keys, idx)[k])
    {
      RotatedAt(keys, idx, j);
      block := block + [Target(c, keys[(idx + j) % |keys|])];
    }
  }

  lemma RotatedAt<T>(s: seq<T>, from: nat, j: nat)
    requires j < |s|
    ensures |Rotated(s, from)| == |s| && Rotated(s, from)[j] == s[(from + j) % |s|]
  {
    var n, r := |s|, from % |s|;
    assert from == n * (from / n) + r;
    if r + j < n {
      RemainderIs(n, from / n, r + j);
    } else {
      assert n * (from / n + 1) == n * (from / n) + n;
      RemainderIs(n, from / n + 1, r + j - n);
    }
  }

  /** The shuffled order holds exactly the chosen channels, each once. */
  lemma OrderIs(all: seq<Channel>, group: bytes, model: bytes, blocked: set<int>, draws: seq<nat>)
    requires UniqueIds(all) && |draws| >= |all|
    ensures var top := Top(all, group, model, blocked);
            var order := Shuffled(top, draws);
            UniqueIds(order) && multiset(order) == multiset(top)
  {
    var top := Top(all, group, model, blocked);
    TopIs(all, group, model, blocked);
    ShuffledIsPermutation(top, draws);
    PermutedIds(top, Shuffled(top, draws));
  }

  lemma {:induction false} PermutedIds(a: seq<Channel>, b: seq<Channel>)
    requires UniqueIds(a) && multiset(a) == multiset(b)
    ensures UniqueIds(b)
  {
    forall i, j | 0 <= i < j < |b|
      ensures b[i].id != b[j].id
    {
      if b[i] == b[j] {
        TwiceInside(b, i, j);
        OnceInside(a, b[i]);
      } else {
        assert b[i] in multiset(a) && b[j] in multiset(a);
      }
    }
  }

  lemma TwiceInside<T>(s: seq<T>, i: nat, j: nat)
    requires i < j < |s| && s[i] == s[j]
    ensures multiset(s)[s[i]] >= 2
  {
    assert s == s[..i] + [s[i]] + s[i + 1..j] + [s[j]] + s[j + 1..];
  }

  lemma {:induction false} OnceInside(cs: seq<Channel>, c: Channel)
    requires UniqueIds(cs)
    ensures multiset(cs)[c] <= 1
  {
    if cs == [] {
    } else {
      assert cs == [cs[0]] + cs[1..];
      OnceInside(cs[1..], c);
      if cs[0] == c {
        assert c !in cs[1..];
      }
    }
  }

  // ----- What the list holds.

  /** The keys a channel is tried with; a channel without keys is tried once, with none. */
  function KeysTried(c: Channel): seq<bytes> {
    if Keys(c.keys) == [] then [""] else Keys(c.keys)
  }

  lemma RotatedMultiset<T>(s: seq<T>, from: nat)
    requires s != []
    ensures multiset(Rotated(s, from)) == multiset(s)
  {
    assert s == s[..from % |s|] + s[from % |s|..];
  }

  lemma {:induction false} CountWithKeys(c: Channel, keys: seq<bytes>, t: Target)
    ensures multiset(WithKeys(c, keys))[t] == if t.channel == c then multiset(keys)[t.key] else 0
  {
    if keys == [] {
      assert WithKeys(c, keys) == [];
    } else {
      CountWithKeys(c, keys[1..], t);
      assert WithKeys(c, keys) == [Target(c, keys[0])] + WithKeys(c, keys[1..]);
      assert keys == [keys[0]] + keys[1..];
    }
  }

  lemma CountBlock(c: Channel, idx: nat, t: Target)
    ensures multiset(Block(c, idx))[t] == if t.channel == c then multiset(KeysTried(c))[t.key] else 0
  {
    var keys := Keys(c.keys);
    if keys != [] {
      CountWithKeys(c, Rotated(keys, idx), t);
      RotatedMultiset(keys, idx);
    }
  }

  lemma {:induction false} CountBlocks(order: seq<Channel>, counters: map<int, nat>, t: Target)
    requires UniqueIds(order)
    ensures multiset(Blocks(order, counters))[t]
            == if t.channel in order then multiset(KeysTried(t.channel))[t.key] else 0
  {
    if order == [] {
    } else {
      var before, last := order[..|order| - 1], order[|order| - 1];
      assert order == before + [last];
      CountBlocks(before, counters, t);
      CountBlock(last, Asked(counters, last.id), t);
    }
  }

  /**
    The list holds exactly the chosen channels' keys: a channel of the highest
    priority once with each position of its key list, and nothing else.
   */
  lemma TargetsAreExact(all: seq<Channel>, group: bytes, model: bytes, blocked: set<int>,
                        draws: seq<nat>, counters: map<int, nat>, t: Target)
    requires UniqueIds(all) && |draws| >= |all|
    ensures var targets := Blocks(Shuffled(Top(all, group, model, blocked), draws), counters);
            multiset(targets)[t]
            == if t.channel in Top(all, group, model, blocked) then multiset(KeysTried(t.channel))[t.key] else 0
  {
    var top := Top(all, group, model, blocked);
    var order := Shuffled(top, draws);
    OrderIs(all, group, model, blocked, draws);
    CountBlocks(order, counters, t);
    assert t.channel in order <==> t.channel in multiset(order);
    assert t.channel in top <==> t.channel in multiset(top);
  }

  /** Targets of one channel stand together. */
  predicate Contiguous(targets: seq<Target>) {
    forall i, j, k :: 0 <= i < j < k < |targets| && targets[i].channel.id == targets[k].channel.id
                      ==> targets[j].channel.id == targets[i].channel.id
  }

  lemma BlockIds(c: Channel, idx: nat)
    ensures forall i :: 0 <= i < |Block(c, idx)| ==> Block(c, idx)[i].channel == c
  {
  }

  lemma {:induction false} BlocksContiguous(order: seq<Channel>, counters: map<int, nat>)
    requires UniqueIds(order)
    ensures Contiguous(Blocks(order, counters))
    ensures forall i :: 0 <= i < |Blocks(order, counters)| ==> Blocks(order, counters)[i].channel in order
  {
    if order == [] {
    } else {
      var before, last := order[..|order| - 1], order[|order| - 1];
      BlocksContiguous(before, counters);
      BlockIds(last, Asked(counters, last.id));
      assert forall c :: c in before ==> c.id != last.id;
      OneMoreBlock(Blocks(before, counters), Block(last, Asked(counters, last.id)), last.id);
      assert forall c :: c in before ==> c in order;
      assert last in order;
    }
  }

  lemma OneMoreBlock(a: seq<Target>, b: seq<Target>, id: int)
    requires Contiguous(a)
    requires forall i :: 0 <= i < |a| ==> a[i].channel.id != id
    requires forall i :: 0 <= i < |b| ==> b[i].channel.id == id
    ensures Contiguous(a + b)
  {
  }

  // ----- Affinity.

  function Having(targets: seq<Target>, id: int): seq<Target> {
    if targets == [] then []
    else (if targets[0].channel.id == id then [targets[0]] else []) + Having(targets[1..], id)
  }

  function Lacking(targets: seq<Target>, id: int): seq<Target> {
    if targets == [] then []
    else (if targets[0].channel.id == id then [] else [targets[0]]) + Lacking(targets[1..], id)
  }

  lemma {:induction false} HavingAppend(a: seq<Target>, b: seq<Target>, id: int)
    ensures Having(a + b, id) == Having(a, id) + Having(b, id)
  {
    if a == [] {
      assert a + b == b;
    } else {
      assert (a + b)[1..] == a[1..] + b;
      HavingAppend(a[1..], b, id);
      Associates(if a[0].channel.id == id then [a[0]] else [], Having(a[1..], id), Having(b, id));
    }
  }

  lemma {:induction false} LackingAppend(a: seq<Target>, b: seq<Target>, id: int)
    ensures Lacking(a + b, id) == Lacking(a, id) + Lacking(b, id)
  {
    if a == [] {
      assert a + b == b;
    } else {
      assert (a + b)[1..] == a[1..] + b;
      LackingAppend(a[1..], b, id);
      Associates(if a[0].channel.id == id then [] else [a[0]], Lacking(a[1..], id), Lacking(b, id));
    }
  }

  lemma {:induction false} PartitionMultiset(targets: seq<Target>, id: int)
    ensures multiset(Having(targets, id) + Lacking(targets, id)) == multiset(targets)
  {
    if targets == [] {
    } else {
      PartitionMultiset(targets[1..], id);
      assert targets == [targets[0]] + targets[1..];
    }
  }

  lemma {:induction false} PartitionIds(targets: seq<Target>, id: int)
    ensures forall t :: t in Having(targets, id) <==> t in targets && t.channel.id == id
    ensures forall t :: t in Lacking(targets, id) <==> t in targets && t.channel.id != id
  {
    if targets == [] {
    } else {
      PartitionIds(targets[1..], id);
    }
  }

  lemma {:induction false} NoneHaving(targets: seq<Target>, id: int)
    requires forall i :: 0 <= i < |targets| ==> targets[i].channel.id != id
    ensures Having(targets, id) == [] && Lacking(targets, id) == targets
  {
    if targets == [] {
    } else {
      NoneHaving(targets[1..], id);
    }
  }

  lemma TailContiguous(targets: seq<Target>)
    requires Contiguous(targets) && targets != []
    ensures Contiguous(targets[1..])
  {
    var rest := targets[1..];
    forall i, j, k | 0 <= i < j < k < |rest| && rest[i].channel.id == rest[k].channel.id
      ensures rest[j].channel.id == rest[i].channel.id
    {
      assert targets[j + 1].channel.id == targets[i + 1].channel.id;
    }
  }

  /** When the block at the front ends, its channel does not come back. */
  lemma BlockEnds(targets: seq<Target>, id: int)
    requires Contiguous(targets) && targets != [] && targets[0].channel.id == id
    requires |targets| > 1 ==> targets[1].channel.id != id
    ensures forall i :: 0 <= i < |targets[1..]| ==> targets[1..][i].channel.id != id
  {
    forall i | 0 <= i < |targets[1..]|
      ensures targets[1..][i].channel.id != id
    {
      assert targets[1..][i] == targets[i + 1];
    }
  }

  lemma {:induction false} AlreadyFirst(targets: seq<Target>, id: int)
    requires Contiguous(targets) && targets != [] && targets[0].channel.id == id
    ensures Having(targets, id) + Lacking(targets, id) == targets
  {
    var rest := targets[1..];
    HeadStays(targets, id);
    if rest != [] && rest[0].channel.id == id {
      TailContiguous(targets);
      AlreadyFirst(rest, id);
    } else {
      BlockEnds(targets, id);
      NoneHaving(rest, id);
      EmptyFirst(rest);
    }
    assert [targets[0]] + rest == targets;
  }

  lemma HeadStays(targets: seq<Target>, id: int)
    requires targets != [] && targets[0].channel.id == id
    ensures Having(targets, id) + Lacking(targets, id)
            == [targets[0]] + (Having(targets[1..], id) + Lacking(targets[1..], id))
  {
    EmptyFirst(Lacking(targets[1..], id));
    Associates([targets[0]], Having(targets[1..], id), Lacking(targets[1..], id));
  }

  method Partition(targets: seq<Target>, id: int) returns (pref: seq<Target>, rest: seq<Target>)
    ensures pref == Having(targets, id) && rest == Lacking(targets, id)
  {
    pref, rest := [], [];
    for i := 0 to |targets|
      invariant pref == Having(targets[..i], id) && rest == Lacking(targets[..i], id)
    {
      HavingAppend(targets[..i], [targets[i]], id);
      LackingAppend(targets[..i], [targets[i]], id);
      assert targets[..i + 1] == targets[..i] + [targets[i]];
      if targets[i].channel.id == id {
        pref := pref + [targets[i]];
      } else {
        rest := rest + [targets[i]];
      }
    }
    assert targets[..|targets|] == targets;
  }

  method FirstOf(targets: seq<Target>, id: int) returns (first: int)
    ensures -1 <= first < |targets|
    ensures first >= 0 ==> targets[first].channel.id == id
    ensures forall j :: 0 <= j < (if first >= 0 then first else |targets|) ==> targets[j].channel.id != id
  {
    for i := 0 to |targets|
      invariant forall j :: 0 <= j < i ==> targets[j].channel.id != id
    {
      if targets[i].channel.id == id {
        return i;
      }
    }
    return -1;
  }

  /** The affine channel's targets in front, both parts in their order. */
  function Preferred(targets: seq<Target>, affine: Option<int>): seq<Target> {
    if affine.None? then targets else Having(targets, affine.value) + Lacking(targets, affine.value)
  }

  lemma PreferredMultiset(targets: seq<Target>, affine: Option<int>)
    ensures multiset(Preferred(targets, affine)) == multiset(targets)
  {
    if affine.Some? {
      PartitionMultiset(targets, affine.value);
    }
  }

  lemma NothingToPrefer(targets: seq<Target>, id: int)
    requires forall i :: 0 <= i < |targets| ==> targets[i].channel.id != id
    ensures Preferred(targets, Some(id)) == targets
  {
    NoneHaving(targets, id);
    EmptyFirst(targets);
  }

  /**
    The affinity reorder.  The code moves the affine channel's block only when
    it is not already in front; either way the result is the stable partition.
   */
  method Prefer(targets: seq<Target>, affine: Option<int>) returns (reordered: seq<Target>)
    requires Contiguous(targets)
    ensures reordered == Preferred(targets, affine)
    ensures multiset(reordered) == multiset(targets)
  {
    PreferredMultiset(targets, affine);
    reordered := targets;
    if affine == None {
      return;
    }
    var id := affine.value;
    var first := FirstOf(targets, id);
    if first > 0 {
      var pref, rest := Partition(targets, id);
      reordered := pref + rest;
    } else if first == 0 {
      AlreadyFirst(targets, id);
    } else {
      NothingToPrefer(targets, id);
    }
  }

  lemma {:induction false} HavingPreferred(targets: seq<Target>, affine: int, id: int)
    ensures Having(Having(targets, affine) + Lacking(targets, affine), id) == Having(targets, id)
  {
    HavingAppend(Having(targets, affine), Lacking(targets, affine), id);
    PartitionIds(targets, affine);
    if id == affine {
      AllHaving(Having(targets, affine), id);
      NoneHaving(Lacking(targets, affine), id);
    } else {
      NoneHaving(Having(targets, affine), id);
      HavingLacking(targets, affine, id);
      EmptyFirst(Having(targets, id));
    }
  }

  lemma {:induction false} HavingLacking(targets: seq<Target>, affine: int, id: int)
    requires id != affine
    ensures Having(Lacking(targets, affine), id) == Having(targets, id)
  {
    if targets == [] {
    } else {
      var head := if targets[0].channel.id == affine then [] else [targets[0]];
      HavingLacking(targets[1..], affine, id);
      HavingAppend(head, Lacking(targets[1..], affine), id);
      assert targets[0].channel.id != affine ==> head[1..] == [];
    }
  }

  /** What is taken out of an ordered list is in order. */
  lemma {:induction false} LackingInOrder(targets: seq<Target>, order: seq<Channel>, id: int)
    requires InOrder(targets, order)
    ensures InOrder(Lacking(targets, id), order)
  {
    if targets == [] {
    } else {
      var rest := targets[1..];
      assert InOrder(rest, order) by {
        forall p, q, a, b | 0 <= p < q < |rest| && 0 <= a < |order| && 0 <= b < |order|
                            && rest[p].channel == order[a] && rest[q].channel == order[b]
          ensures a <= b
        {
          assert targets[p + 1].channel == order[a] && targets[q + 1].channel == order[b];
        }
      }
      LackingInOrder(rest, order, id);
      if targets[0].channel.id != id {
        HeadInOrder(targets, order, id);
      } else {
        EmptyFirst(Lacking(rest, id));
      }
    }
  }

  lemma HeadInOrder(targets: seq<Target>, order: seq<Channel>, id: int)
    requires targets != [] && InOrder(targets, order) && InOrder(Lacking(targets[1..], id), order)
    ensures InOrder([targets[0]] + Lacking(targets[1..], id), order)
  {
    var rest := Lacking(targets[1..], id);
    var all := [targets[0]] + rest;
    forall p, q, a, b | 0 <= p < q < |all| && 0 <= a < |order| && 0 <= b < |order|
                        && all[p].channel == order[a] && all[q].channel == order[b]
      ensures a <= b
    {
      assert all[q] == rest[q - 1];
      if p == 0 {
        InTail(targets, id, rest[q - 1]);
        var k :| 0 < k < |targets| && targets[k] == rest[q - 1];
      } else {
        assert all[p] == rest[p - 1];
      }
    }
  }

  lemma InTail(targets: seq<Target>, id: int, t: Target)
    requires targets != [] && t in Lacking(targets[1..], id)
    ensures exists k :: 0 < k < |targets| && targets[k] == t
  {
    PartitionIds(targets[1..], id);
    var k :| 0 <= k < |targets[1..]| && targets[1..][k] == t;
    assert targets[k + 1] == t;
  }

  /** The affine channel's targets come first, the others in the order drawn. */
  ghost predicate AffineFirst(targets: seq<Target>, order: seq<Channel>, affine: Option<int>) {
    if affine.None? then InOrder(targets, order)
    else
      exists n :: && 0 <= n <= |targets|
                  && (forall i :: 0 <= i < n ==> targets[i].channel.id == affine.value)
                  && (forall i :: n <= i < |targets| ==> targets[i].channel.id != affine.value)
                  && InOrder(targets[n..], order)
  }

  lemma PreferredTakesTurns(built: seq<Target>, chosen: seq<Channel>, counters: map<int, nat>, id: int)
    requires TakesTurns(built, chosen, counters)
    ensures TakesTurns(Having(built, id) + Lacking(built, id), chosen, counters)
  {
    var targets := Having(built, id) + Lacking(built, id);
    PartitionIds(built, id);
    forall c | c in chosen
      ensures KeysInTurn(targets, c, if c.id in counters then counters[c.id] else 0)
    {
      HavingPreferred(built, id, c.id);
      assert KeysInTurn(built, c, if c.id in counters then counters[c.id] else 0);
    }
    forall t | t in targets
      ensures t.channel in chosen
    {
      assert t in built;
    }
  }

  lemma PreferredInOrder(built: seq<Target>, order: seq<Channel>, id: int)
    requires InOrder(built, order)
    ensures AffineFirst(Having(built, id) + Lacking(built, id), order, Some(id))
  {
    PartitionIds(built, id);
    LackingInOrder(built, order, id);
    OthersBehind(Having(built, id), Lacking(built, id), order, id);
  }

  lemma OthersBehind(first: seq<Target>, others: seq<Target>, order: seq<Channel>, id: int)
    requires (forall t :: t in first ==> t.channel.id == id) && (forall t :: t in others ==> t.channel.id != id)
    requires InOrder(others, order)
    ensures AffineFirst(first + others, order, Some(id))
  {
    var targets, n := first + others, |first|;
    assert targets[n..] == others;
    forall i | 0 <= i < n
      ensures targets[i].channel.id == id
    {
      assert targets[i] in first;
    }
    forall i | n <= i < |targets|
      ensures targets[i].channel.id != id
    {
      assert targets[i] == others[i - n];
    }
  }

  /**
    Built and reordered: every target list the relay walks is the stable
    partition of the built one, each channel's keys still in turn.
   */
  method RelayTargets(all: seq<Channel>, group: bytes, model: bytes, blocked: set<int>,
                      rotation: KeyCounters, draws: seq<nat>, affine: Option<int>) returns (targets: seq<Target>)
    requires UniqueIds(all) && |draws| >= |all|
    modifies rotation
    ensures var built := Blocks(Shuffled(Top(all, group, model, blocked), draws), old(rotation.counters));
            targets == Preferred(built, affine)
    ensures forall t :: multiset(targets)[t]
              == if t.channel in Top(all, group, model, blocked) then multiset(KeysTried(t.channel))[t.key] else 0
    ensures TakesTurns(targets, Top(all, group, model, blocked), old(rotation.counters))
    ensures AffineFirst(targets, Shuffled(Top(all, group, model, blocked), draws), affine)
    ensures Counts(old(rotation.counters), rotation.counters, Top(all, group, model, blocked))
  {
    targets := BuildTargets(all, group, model, blocked, rotation, draws);
    ghost var order := Shuffled(Top(all, group, model, blocked), draws);
    OrderIs(all, group, model, blocked, draws);
    BlocksContiguous(order, old(rotation.counters));
    if affine.Some? {
      PreferredTakesTurns(targets, Top(all, group, model, blocked), old(rotation.counters), affine.value);
      PreferredInOrder(targets, order, affine.value);
    }
    forall t
      ensures multiset(targets)[t]
              == if t.channel in Top(all, group, model, blocked) then multiset(KeysTried(t.channel))[t.key] else 0
    {
      TargetsAreExact(all, group, model, blocked, draws, old(rotation.counters), t);
    }
    targets := Prefer(targets, affine);
  }

  /** The store hands on only enabled channels; the candidates are all among them. */
  lemma {:induction false} CandidatesOfEnabled(all: seq<Channel>, group: bytes, model: bytes, blocked: set<int>)
    ensures Candidates(Enabled(all), group, model, blocked) == Candidates(all, group, model, blocked)
  {
    if all == [] {
    } else {
      CandidatesOfEnabled(all[1..], group, model, blocked);
      if all[0].status == 1 {
        assert ([all[0]] + Enabled(all[1..]))[1..] == Enabled(all[1..]);
      } else {
        EmptyFirst(Enabled(all[1..]));
        EmptyFirst(Candidates(all[1..], group, model, blocked));
      }
    }
  }

  /**
    From the store to the list the relay walks: whatever was inserted, updated
    and deleted before, it is the stable partition of blocks of the store's own
    best candidates, and holds exactly their keys, each channel's in turn.
   */
  method TargetsFromStore(store: Store, group: bytes, model: bytes, blocked: set<int>,
                          rotation: KeyCounters, draws: seq<nat>, affine: Option<int>)
    returns (targets: seq<Target>)
    requires store.Valid() && |draws| >= |store.channels|
    modifies rotation
    ensures var top := Top(store.channels, group, model, blocked);
            var built := Blocks(Shuffled(top, draws), old(rotation.counters));
            && |top| <= |draws|
            && targets == Preferred(built, affine)
            && forall t :: multiset(targets)[t] == if t.channel in top then multiset(KeysTried(t.channel))[t.key] else 0
    ensures TakesTurns(targets, Top(store.channels, group, model, blocked), old(rotation.counters))
    ensures AffineFirst(targets, Shuffled(Top(store.channels, group, model, blocked), draws), affine)
    ensures Counts(old(rotation.counters), rotation.counters, Top(store.channels, group, model, blocked))
    ensures forall t :: t in targets ==>
              var c := t.channel;
              && c in store.channels && c.status == 1 && c.id !in blocked && c.group == group
              && (model == "" || c.models == "" || c.models == "*" || InList(c.models, model))
  {
    var all := store.GetAll();
    EnabledUnique(store.channels);
    EnabledShorter(store.channels);
    SameTop(store.channels, group, model, blocked);
    targets := RelayTargets(all, group, model, blocked, rotation, draws, affine);
    TargetsUsable(store.channels, group, model, blocked, targets);
  }

  lemma SameTop(all: seq<Channel>, group: bytes, model: bytes, blocked: set<int>)
    ensures Top(Enabled(all), group, model, blocked) == Top(all, group, model, blocked)
  {
    CandidatesOfEnabled(all, group, model, blocked);
  }

  lemma TargetsUsable(all: seq<Channel>, group: bytes, model: bytes, blocked: set<int>, targets: seq<Target>)
    requires UniqueIds(all) && forall t :: t in targets ==> t.channel in Top(all, group, model, blocked)
    ensures forall t :: t in targets ==>
              var c := t.channel;
              && c in all && c.status == 1 && c.id !in blocked && c.group == group
              && (model == "" || c.models == "" || c.models == "*" || InList(c.models, model))
  {
    TopIs(all, group, model, blocked);
  }

  lemma {:induction false} EnabledShorter(channels: seq<Channel>)
    ensures |Enabled(channels)| <= |channels|
  {
    if channels == [] {
    } else {
      EnabledShorter(channels[1..]);
    }
  }

  // ----- Builds one after the other.

  /** What one relayed request asks of the build, and the draws it makes. */
  datatype Build = Build(group: bytes, model: bytes, blocked: set<int>, draws: seq<nat>)

  predicate Chooses(all: seq<Channel>, b: Build, c: Channel) {
    c in Top(all, b.group, b.model, b.blocked)
  }

  /** How many of the builds choose the channel. */
  function Chosen(all: seq<Channel>, builds: seq<Build>, c: Channel): nat {
    if builds == [] then 0
    else Chosen(all, builds[..|builds| - 1], c) + if Chooses(all, builds[|builds| - 1], c) then 1 else 0
  }

  /** The counters after these builds: none for a channel never chosen, else one less than it was chosen. */
  ghost predicate CountersAfter(all: seq<Channel>, builds: seq<Build>, counters: map<int, nat>) {
    forall c :: c in all && Keys(c.keys) != [] ==>
      && (c.id in counters <==> Chosen(all, builds, c) > 0)
      && (c.id in counters ==> counters[c.id] == Chosen(all, builds, c) - 1)
  }

  /** The key position at which the build starts, `earlier` builds having chosen the channel before it. */
  ghost predicate StartsRound(targets: seq<Target>, c: Channel, earlier: nat) {
    var own, keys := Having(targets, c.id), Keys(c.keys);
    own != [] && own[0].channel == c
    && (keys != [] ==> own[0].key == keys[(if earlier == 0 then 0 else earlier - 1) % |keys|])
  }

  /** The build starts every channel it chooses where its turn is. */
  ghost predicate Started(all: seq<Channel>, builds: seq<Build>, i: nat, targets: seq<Target>)
    requires i < |builds|
  {
    forall c :: Chooses(all, builds[i], c) ==> StartsRound(targets, c, Chosen(all, builds[..i], c))
  }

  lemma ChosenStep(all: seq<Channel>, builds: seq<Build>, i: nat, before: map<int, nat>, after: map<int, nat>)
    requires UniqueIds(all) && i < |builds| && CountersAfter(all, builds[..i], before)
    requires Counts(before, after, Top(all, builds[i].group, builds[i].model, builds[i].blocked))
    ensures CountersAfter(all, builds[..i + 1], after)
  {
    var b := builds[i];
    var top := Top(all, b.group, b.model, b.blocked);
    assert builds[..i + 1][..i] == builds[..i];
    TopIs(all, b.group, b.model, b.blocked);
    forall c | c in all && Keys(c.keys) != []
      ensures c.id in after <==> Chosen(all, builds[..i + 1], c) > 0
      ensures c.id in after ==> after[c.id] == Chosen(all, builds[..i + 1], c) - 1
    {
      if c !in top {
        SameId(all, c);
        assert forall d :: d in top && Keys(d.keys) != [] ==> d.id != c.id;
      }
    }
  }

  lemma SameId(all: seq<Channel>, c: Channel)
    requires UniqueIds(all) && c in all
    ensures forall d :: d in all && d.id == c.id ==> d == c
  {
  }

  lemma FirstKey(all: seq<Channel>, builds: seq<Build>, targets: seq<Target>, c: Channel, counters: map<int, nat>)
    requires CountersAfter(all, builds, counters) && c in all
    requires KeysInTurn(targets, c, if c.id in counters then counters[c.id] else 0)
    ensures StartsRound(targets, c, Chosen(all, builds, c))
  {
    var idx := if c.id in counters then counters[c.id] else 0;
    if Keys(c.keys) != [] {
      OwnFirst(targets, c, idx);
      assert idx == if Chosen(all, builds, c) == 0 then 0 else Chosen(all, builds, c) - 1;
    }
  }

  lemma OwnFirst(targets: seq<Target>, c: Channel, idx: nat)
    requires KeysInTurn(targets, c, idx) && Keys(c.keys) != []
    ensures Having(targets, c.id) != []
    ensures Having(targets, c.id)[0] == Target(c, Keys(c.keys)[idx % |Keys(c.keys)|])
  {
    var j := 0;
    assert Having(targets, c.id)[j] == Target(c, Keys(c.keys)[(idx + j) % |Keys(c.keys)|]);
    assert idx + j == idx;
  }

  /** One of the builds, those before it done. */
  method BuildNext(all: seq<Channel>, builds: seq<Build>, i: nat, rotation: KeyCounters) returns (targets: seq<Target>)
    requires UniqueIds(all) && i < |builds| && |builds[i].draws| >= |all|
    requires CountersAfter(all, builds[..i], rotation.counters)
    modifies rotation
    ensures CountersAfter(all, builds[..i + 1], rotation.counters)
    ensures Started(all, builds, i, targets)
  {
    var b := builds[i];
    ghost var before := rotation.counters;
    TopIs(all, b.group, b.model, b.blocked);
    targets := BuildTargets(all, b.group, b.model, b.blocked, rotation, b.draws);
    ChosenStep(all, builds, i, before, rotation.counters);
    forall c | Chooses(all, b, c)
      ensures StartsRound(targets, c, Chosen(all, builds[..i], c))
    {
      FirstKey(all, builds[..i], targets, c, before);
    }
  }

  /**
    Any number of builds over the same channels, each with its own group, model
    and draws: however often a channel was not chosen in between, its builds
    start at its first key twice and then at one key after the other.
   */
  method BuildInTurn(all: seq<Channel>, builds: seq<Build>, rotation: KeyCounters) returns (lists: seq<seq<Target>>)
    requires UniqueIds(all) && rotation.counters == map[]
    requires forall i :: 0 <= i < |builds| ==> |builds[i].draws| >= |all|
    modifies rotation
    ensures AllStarted(all, builds, lists)
  {
    lists := [];
    for i := 0 to |builds|
      invariant |lists| == i && CountersAfter(all, builds[..i], rotation.counters)
      invariant forall j :: 0 <= j < i ==> Started(all, builds, j, lists[j])
    {
      var targets := BuildNext(all, builds, i, rotation);
      assert forall j :: 0 <= j < i ==> (lists + [targets])[j] == lists[j];
      lists := lists + [targets];
    }
  }

  function Firsts(lists: seq<seq<Target>>, c: Channel, picks: seq<nat>): seq<bytes> {
    seq(|picks|, r requires 0 <= r < |picks| => if picks[r] < |lists| then FirstKeyOf(lists[picks[r]], c) else "")
  }

  ghost predicate AllStarted(all: seq<Channel>, builds: seq<Build>, lists: seq<seq<Target>>) {
    |lists| == |builds| && forall i :: 0 <= i < |builds| ==> Started(all, builds, i, lists[i])
  }

  /** The builds picked all choose the channel, and none between them does. */
  predicate Consecutive(all: seq<Channel>, builds: seq<Build>, c: Channel, picks: seq<nat>, earlier: nat) {
    forall r :: 0 <= r < |picks| ==>
      && picks[r] < |builds| && Chooses(all, builds[picks[r]], c)
      && Chosen(all, builds[..picks[r]], c) == earlier + r
  }

  /** The key a list of targets tries first for a channel. */
  function FirstKeyOf(targets: seq<Target>, c: Channel): bytes {
    var own := Having(targets, c.id);
    if own == [] then "" else own[0].key
  }

  /**
    So of as many builds as the channel has keys, one after the other but the
    very first one apart, whatever stands between them, each tries another of
    its keys first: together all of them, in the order of the list.
   */
  lemma EachKeyFirstOnce(all: seq<Channel>, builds: seq<Build>, lists: seq<seq<Target>>, c: Channel,
                         picks: seq<nat>, earlier: nat)
    requires AllStarted(all, builds, lists) && Consecutive(all, builds, c, picks, earlier)
    requires earlier > 0 && |picks| == |Keys(c.keys)| > 0
    ensures InTurn(Firsts(lists, c, picks), Keys(c.keys), earlier - 1)
    ensures multiset(Firsts(lists, c, picks)) == multiset(Keys(c.keys))
  {
    StartInTurn(all, builds, lists, c, picks, earlier);
    FairStarts(lists, c, picks, earlier);
  }

  ghost predicate StartsAt(lists: seq<seq<Target>>, c: Channel, i: nat, earlier: nat) {
    i < |lists| && StartsRound(lists[i], c, earlier)
  }

  lemma StartInTurn(all: seq<Channel>, builds: seq<Build>, lists: seq<seq<Target>>, c: Channel,
                    picks: seq<nat>, earlier: nat)
    requires AllStarted(all, builds, lists) && Consecutive(all, builds, c, picks, earlier)
    ensures forall r :: 0 <= r < |picks| ==> StartsAt(lists, c, picks[r], earlier + r)
  {
    forall r | 0 <= r < |picks|
      ensures StartsAt(lists, c, picks[r], earlier + r)
    {
      assert Started(all, builds, picks[r], lists[picks[r]]);
    }
  }

  lemma FairStarts(lists: seq<seq<Target>>, c: Channel, picks: seq<nat>, earlier: nat)
    requires earlier > 0 && |picks| == |Keys(c.keys)| > 0
    requires forall r :: 0 <= r < |picks| ==> StartsAt(lists, c, picks[r], earlier + r)
    ensures InTurn(Firsts(lists, c, picks), Keys(c.keys), earlier - 1)
    ensures multiset(Firsts(lists, c, picks)) == multiset(Keys(c.keys))
  {
    forall r | 0 <= r < |picks|
      ensures Firsts(lists, c, picks)[r] == Keys(c.keys)[(earlier - 1 + r) % |Keys(c.keys)|]
    {
      assert StartsAt(lists, c, picks[r], earlier + r);
    }
    AllInTurn(Keys(c.keys), Firsts(lists, c, picks), earlier - 1);
  }

  predicate InTurn(firsts: seq<bytes>, keys: seq<bytes>, from: nat) {
    |firsts| == |keys| && forall r :: 0 <= r < |keys| ==> firsts[r] == keys[(from + r) % |keys|]
  }

  lemma AllInTurn(keys: seq<bytes>, firsts: seq<bytes>, from: nat)
    requires keys != [] && InTurn(firsts, keys, from)
    ensures multiset(firsts) == multiset(keys)
  {
    forall r | 0 <= r < |keys|
      ensures |Rotated(keys, from)| == |keys| && firsts[r] == Rotated(keys, from)[r]
    {
      RotatedAt(keys, from, r);
    }
    RotatedMultiset(keys, from);
    assert firsts == Rotated(keys, from);
  }
}
