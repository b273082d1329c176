/**
  Upstream channels: the store that numbers them, and the key and model lists
  a channel keeps as comma-separated text.
 */
module Channels {
  import opened Bytes
  import opened Sequences

  /** The fields routing depends on. */
  datatype Channel = Channel(id: int, keys: bytes, models: bytes, group: bytes,
                             priority: int, weight: int, status: int)

  // ----- Keys and models.

  /** A channel's upstream keys: the non-blank names between commas. */
  function Keys(keys: bytes): seq<bytes> {
    NonBlank(Split(keys, ','))
  }

  method KeyList(c: Channel) returns (out: seq<bytes>)
    ensures out == Keys(c.keys)
  {
    if c.keys == "" {
      assert Split("", ',') == [""];
      return [];
    }
    var parts := Split(c.keys, ',');
    out := [];
    for i := 0 to |parts|
      invariant out == NonBlank(parts[..i])
    {
      NonBlankStep(parts, i);
      var p := TrimSpace(parts[i]);
      if p != "" {
        out := out + [p];
      }
    }
    assert parts[..|parts|] == parts;
  }

  /** Between two commas stands one key, trimmed, or none if that leaves nothing. */
  lemma KeysBetweenCommas(a: bytes, b: bytes)
    ensures Keys(a + "," + b) == Keys(a) + Keys(b)
    ensures ',' !in a ==> Keys(a) == if TrimSpace(a) == "" then [] else [TrimSpace(a)]
  {
    SplitAcross(a, ',', b);
    NonBlankAppend(Split(a, ','), Split(b, ','));
    if ',' !in a {
      SplitAlone(a, ',');
      assert [a][1..] == [];
    }
  }

  const WILDCARD: bytes := "*"

  predicate Wild(models: bytes) {
    models == "" || models == WILDCARD
  }

  /** Some item is `name` once trimmed. */
  predicate Among(items: seq<bytes>, name: bytes) {
    exists i :: 0 <= i < |items| && TrimSpace(items[i]) == name
  }

  predicate Listed(models: bytes, model: bytes) {
    Among(Split(models, ','), model)
  }

  predicate Supports(models: bytes, model: bytes) {
    Wild(models) || Listed(models, model)
  }

  /** Some item between the commas is the name once trimmed. */
  predicate InList(list: bytes, name: bytes) {
    exists i :: 0 <= i < |Split(list, ',')| && TrimSpace(Split(list, ',')[i]) == name
  }

  /** An empty list and a lone star support everything; otherwise some item must be the model once trimmed. */
  lemma SupportsMeans(models: bytes, model: bytes)
    ensures Supports(models, model) <==>
            models == "" || models == "*" || InList(models, model)
  {
    assert InList(models, model) <==> Listed(models, model);
  }

  method SupportsModel(c: Channel, model: bytes) returns (ok: bool)
    ensures ok == Supports(c.models, model)
  {
    if c.models == "" || c.models == WILDCARD {
      return true;
    }
    var parts := Split(c.models, ',');
    for i := 0 to |parts|
      invariant forall j :: 0 <= j < i ==> TrimSpace(parts[j]) != model
    {
      if TrimSpace(parts[i]) == model {
        return true;
      }
    }
    return false;
  }

  // ----- The store.

  predicate UniqueIds(channels: seq<Channel>) {
    forall i, j :: 0 <= i < j < |channels| ==> channels[i].id != channels[j].id
  }

  /** The channels other than `id`. */
  function Without(channels: seq<Channel>, id: int): seq<Channel> {
    if channels == [] then []
    else (if channels[0].id == id then [] else [channels[0]]) + Without(channels[1..], id)
  }

  lemma {:induction false} WithoutAbsent(channels: seq<Channel>, id: int)
    requires forall i :: 0 <= i < |channels| ==> channels[i].id != id
    ensures Without(channels, id) == channels
  {
    if channels == [] {
    } else {
      WithoutAbsent(channels[1..], id);
    }
  }

  lemma {:induction false} WithoutOne(channels: seq<Channel>, i: nat)
    requires i < |channels| && UniqueIds(channels)
    ensures Without(channels, channels[i].id) == channels[..i] + channels[i + 1..]
  {
    if i == 0 {
      WithoutAbsent(channels[1..], channels[0].id);
    } else {
      WithoutOne(channels[1..], i - 1);
      assert channels[..i] == [channels[0]] + channels[1..][..i - 1];
      assert channels[1..][i - 1 + 1..] == channels[i + 1..];
    }
  }

  class Store {
    var channels: seq<Channel>
    var next: int

    /** No two channels share an id, and ids still to be given out are larger than all of them. */
    predicate Valid()
      reads this
    {
      && UniqueIds(channels)
      && forall i :: 0 <= i < |channels| ==> channels[i].id < next
    }

    constructor (loaded: seq<Channel>)
      requires UniqueIds(loaded)
      ensures Valid() && channels == loaded && next >= 1
    {
      var n := 1;
      for i := 0 to |loaded|
        invariant n >= 1
        invariant forall j :: 0 <= j < i ==> loaded[j].id < n
      {
        if loaded[i].id >= n {
          n := loaded[i].id + 1;
        }
      }
      channels := loaded;
      next := n;
    }

    /** The enabled channels, in order. */
    method GetAll() returns (out: seq<Channel>)
      ensures out == Enabled(channels)
    {
      out := [];
      for i := 0 to |channels|
        invariant out == Enabled(channels[..i])
      {
        EnabledAppend(channels[..i], [channels[i]]);
        assert channels[..i + 1] == channels[..i] + [channels[i]];
        if channels[i].status == 1 {
          out := out + [channels[i]];
        }
      }
      assert channels[..|channels|] == channels;
    }

    method Insert(c: Channel) returns (id: int)
      requires Valid()
      modifies this
      ensures Valid() && id == old(next) && next == old(next) + 1
      ensures forall i :: 0 <= i < |old(channels)| ==> old(channels)[i].id != id
      ensures channels == old(channels) + [c.(id := id, weight := if c.weight > 0 then c.weight else 1)]
    {
      id := next;
      next := next + 1;
      var stored := c.(id := id);
      if stored.weight <= 0 {
        stored := stored.(weight := 1);
      }
      channels := channels + [stored];
    }

    method Update(id: int, c: Channel) returns (found: bool)
      requires Valid()
      modifies this`channels
      ensures Valid() && |channels| == |old(channels)|
      ensures found <==> exists i :: 0 <= i < |old(channels)| && old(channels)[i].id == id
      ensures forall i :: 0 <= i < |channels| ==>
                channels[i] == if old(channels)[i].id == id
                               then c.(id := id, weight := if c.weight > 0 then c.weight else 1)
                               else old(channels)[i]
    {
      for i := 0 to |channels|
        invariant channels == old(channels)
        invariant forall j :: 0 <= j < i ==> channels[j].id != id
      {
        if channels[i].id == id {
          var stored := c.(id := id);
          if stored.weight <= 0 {
            stored := stored.(weight := 1);
          }
          channels := channels[i := stored];
          return true;
        }
      }
      return false;
    }

    method Delete(id: int) returns (found: bool)
      requires Valid()
      modifies this`channels
      ensures Valid() && channels == Without(old(channels), id)
      ensures forall i :: 0 <= i < |old(channels)| && old(channels)[i].id == id ==>
                channels == old(channels)[..i] + old(channels)[i + 1..]
      ensures !found ==> channels == old(channels)
      ensures found <==> exists i :: 0 <= i < |old(channels)| && old(channels)[i].id == id
    {
      for i := 0 to |channels|
        invariant channels == old(channels)
        invariant forall j :: 0 <= j < i ==> channels[j].id != id
      {
        if channels[i].id == id {
          WithoutOne(channels, i);
          channels := channels[..i] + channels[i + 1..];
          return true;
        }
      }
      WithoutAbsent(channels, id);
      return false;
    }
  }

  function Enabled(channels: seq<Channel>): seq<Channel> {
    if channels == [] then []
    else (if channels[0].status == 1 then [channels[0]] else []) + Enabled(channels[1..])
  }

  lemma {:induction false} EnabledAppend(a: seq<Channel>, b: seq<Channel>)
    ensures Enabled(a + b) == Enabled(a) + Enabled(b)
  {
    if a == [] {
      assert a + b == b;
    } else {
      assert (a + b)[1..] == a[1..] + b;
      EnabledAppend(a[1..], b);
      Associates(if a[0].status == 1 then [a[0]] else [], Enabled(a[1..]), Enabled(b));
    }
  }

  /** What `GetAll` hands on has distinct ids when the store has. */
  lemma {:induction false} EnabledUnique(channels: seq<Channel>)
    requires UniqueIds(channels)
    ensures UniqueIds(Enabled(channels))
    ensures forall c :: c in Enabled(channels) <==> c in channels && c.status == 1
  {
    if channels == [] {
    } else {
      var rest := channels[1..];
      assert UniqueIds(rest) by {
        forall i, j | 0 <= i < j < |rest|
          ensures rest[i].id != rest[j].id
        {
          assert rest[i] == channels[i + 1] && rest[j] == channels[j + 1];
        }
      }
      EnabledUnique(rest);
      var kept := Enabled(rest);
      forall i | 0 <= i < |kept|
        ensures kept[i].id != channels[0].id
      {
        assert kept[i] in rest;
        var j :| 0 <= j < |rest| && rest[j] == kept[i];
        assert channels[j + 1] == rest[j];
      }
      forall c
        ensures c in Enabled(channels) <==> c in channels && c.status == 1
      {
        assert c in channels <==> c == channels[0] || c in rest;
      }
    }
  }
}
