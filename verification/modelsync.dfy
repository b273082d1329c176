/**
  Merging the model ids an upstream reports into a channel's model list, and
  what that does to the models the channel supports.
 */
module ModelSync {
  import opened Bytes
  import opened Channels
  import opened Sequences

  /** A name as the lists keep it. */
  predicate Plain(name: bytes) {
    name != "" && TrimSpace(name) == name && ',' !in name
  }

  predicate Names(names: seq<bytes>) {
    Distinct(names) && forall i :: 0 <= i < |names| ==> Plain(names[i])
  }

  /** The names a list mentions. */
  predicate Mentions(existing: bytes, name: bytes) {
    name != "" && Listed(existing, name)
  }

  predicate Fetched(fetched: seq<bytes>, name: bytes) {
    name != "" && name != WILDCARD && Among(fetched, name)
  }

  predicate NoCommas(fetched: seq<bytes>) {
    forall i :: 0 <= i < |fetched| ==> ',' !in fetched[i]
  }

  /** First occurrences, in order, of what is not in `seen`. */
  function Unseen(items: seq<bytes>, seen: seq<bytes>, star: bool): seq<bytes>
  {
    if items == [] then []
    else
      var name := TrimSpace(items[0]);
      if name == "" || name in seen || (star && name == WILDCARD) then Unseen(items[1..], seen, star)
      else [name] + Unseen(items[1..], seen + [name], star)
  }

  /** The merged list: the old names without repeats, then the new ones. */
  function Kept(existing: bytes): seq<bytes> {
    Unseen(Split(existing, ','), [], false)
  }

  function Added(existing: bytes, fetched: seq<bytes>): seq<bytes> {
    Unseen(fetched, Kept(existing), true)
  }

  method MergeChannelModels(existing: bytes, fetched: seq<bytes>) returns (list: bytes, added: nat)
    ensures list == Join(Kept(existing) + Added(existing, fetched), ',')
    ensures added == |Added(existing, fetched)|
  {
    var seen: set<bytes> := {};
    var merged: seq<bytes> := [];
    var parts := Split(existing, ',');
    for i := 0 to |parts|
      invariant forall m :: m in seen <==> m in merged
      invariant merged + Unseen(parts[i..], merged, false) == Kept(existing)
    {
      assert parts[i..][1..] == parts[i + 1..];
      var m := TrimSpace(parts[i]);
      if m == "" || m in seen {
        continue;
      }
      Associates(merged, [m], Unseen(parts[i + 1..], merged + [m], false));
      seen := seen + {m};
      merged := merged + [m];
    }
    assert merged == Kept(existing);
    added := 0;
    ghost var kept := merged;
    for i := 0 to |fetched|
      invariant forall m :: m in seen <==> m in merged
      invariant merged + Unseen(fetched[i..], merged, true) == kept + Added(existing, fetched)
      invariant |merged| == |kept| + added
    {
      assert fetched[i..][1..] == fetched[i + 1..];
      var m := TrimSpace(fetched[i]);
      if m == "" || m == WILDCARD || m in seen {
        continue;
      }
      Associates(merged, [m], Unseen(fetched[i + 1..], merged + [m], true));
      seen := seen + {m};
      merged := merged + [m];
      added := added + 1;
    }
    assert merged == kept + Added(existing, fetched);
    list := Join(merged, ',');
  }

  // ----- What the merged list names.

  lemma {:induction false} UnseenIs(items: seq<bytes>, seen: seq<bytes>, star: bool)
    ensures forall n :: n in Unseen(items, seen, star) <==>
              n != "" && n !in seen && !(star && n == WILDCARD)
              && Among(items, n)
    ensures Distinct(Unseen(items, seen, star))
    decreases items
  {
    if items == [] {
    } else {
      var name, rest := TrimSpace(items[0]), items[1..];
      var skip := name == "" || name in seen || (star && name == WILDCARD);
      var deeper := if skip then seen else seen + [name];
      UnseenIs(rest, deeper, star);
      AmongCons(items);
      if !skip {
        var u := Unseen(rest, deeper, star);
        assert name in deeper && name !in u;
        assert Unseen(items, seen, star) == [name] + u;
      }
    }
  }

  lemma AmongCons(items: seq<bytes>)
    requires items != []
    ensures forall n :: Among(items, n) <==> n == TrimSpace(items[0]) || Among(items[1..], n)
  {
    forall n
      ensures Among(items, n) <==> n == TrimSpace(items[0]) || Among(items[1..], n)
    {
      if Among(items, n) {
        var i :| 0 <= i < |items| && TrimSpace(items[i]) == n;
        if i > 0 {
          assert items[1..][i - 1] == items[i];
        }
      }
      if Among(items[1..], n) {
        var i :| 0 <= i < |items[1..]| && TrimSpace(items[1..][i]) == n;
        assert items[i + 1] == items[1..][i];
      }
    }
  }

  lemma DistinctAppend(a: seq<bytes>, b: seq<bytes>)
    requires Distinct(a) && Distinct(b) && forall n :: n in b ==> n !in a
    ensures Distinct(a + b)
  {
    forall i, j | 0 <= i < j < |a + b|
      ensures (a + b)[i] != (a + b)[j]
    {
      if i < |a| <= j {
        assert (a + b)[i] in a && (a + b)[j] in b;
      }
    }
  }

  function Merged(existing: bytes, fetched: seq<bytes>): seq<bytes> {
    Kept(existing) + Added(existing, fetched)
  }

  /** Each name keeps the place at which it was first mentioned. */
  lemma {:induction false} UnseenPicked(items: seq<bytes>, seen: seq<bytes>, star: bool) returns (places: seq<nat>)
    ensures FirstMentions(Unseen(items, seen, star), items, places)
  {
    places := [];
    if items != [] {
      var name := TrimSpace(items[0]);
      UnseenIs(items, seen, star);
      if name == "" || name in seen || (star && name == WILDCARD) {
        var rest := UnseenPicked(items[1..], seen, star);
        MentionedLater(Unseen(items[1..], seen, star), items, rest);
        places := OneOn(rest);
      } else {
        var rest := UnseenPicked(items[1..], seen + [name], star);
        UnseenIs(items[1..], seen + [name], star);
        MentionedNow(Unseen(items[1..], seen + [name], star), items, rest);
        places := [0] + OneOn(rest);
      }
    }
  }

  predicate FirstMentions(names: seq<bytes>, items: seq<bytes>, places: seq<nat>) {
    && |places| == |names|
    && (forall k :: 0 <= k < |names| ==> places[k] < |items| && TrimSpace(items[places[k]]) == names[k])
    && (forall k, j :: 0 <= k < |names| && 0 <= j < places[k] ==> TrimSpace(items[j]) != names[k])
    && (forall k, l :: 0 <= k < l < |names| ==> places[k] < places[l])
  }

  lemma MentionedLater(names: seq<bytes>, items: seq<bytes>, places: seq<nat>)
    requires items != [] && TrimSpace(items[0]) !in names && FirstMentions(names, items[1..], places)
    ensures FirstMentions(names, items, OneOn(places))
  {
    var later := OneOn(places);
    forall k, j | 0 <= k < |names| && 0 <= j < later[k]
      ensures TrimSpace(items[j]) != names[k]
    {
      if j > 0 {
        assert items[j] == items[1..][j - 1];
      }
    }
    assert forall k :: 0 <= k < |names| ==> items[later[k]] == items[1..][places[k]];
  }

  lemma MentionedNow(names: seq<bytes>, items: seq<bytes>, places: seq<nat>)
    requires items != [] && TrimSpace(items[0]) !in names && FirstMentions(names, items[1..], places)
    ensures FirstMentions([TrimSpace(items[0])] + names, items, [0] + OneOn(places))
  {
    MentionedLater(names, items, places);
    OneInFront(TrimSpace(items[0]), names, items, OneOn(places));
  }

  lemma OneInFront(name: bytes, names: seq<bytes>, items: seq<bytes>, later: seq<nat>)
    requires FirstMentions(names, items, later) && forall k :: 0 <= k < |later| ==> later[k] > 0
    requires items != [] && TrimSpace(items[0]) == name
    ensures FirstMentions([name] + names, items, [0] + later)
  {
    var all, places := [name] + names, [0] + later;
    assert forall k :: 0 < k < |all| ==> all[k] == names[k - 1] && places[k] == later[k - 1];
  }

  /**
    The merged list: first the names mentioned before, then the new ones, each
    at the place where it is mentioned first.
   */
  lemma MergedInOrder(existing: bytes, fetched: seq<bytes>) returns (n: nat, kept: seq<nat>, added: seq<nat>)
    ensures var merged, parts := Merged(existing, fetched), Split(existing, ',');
            && n <= |merged| && |kept| == n && |added| == |merged| - n
            && (forall k :: 0 <= k < n ==> kept[k] < |parts| && TrimSpace(parts[kept[k]]) == merged[k])
            && (forall k, j :: 0 <= k < n && 0 <= j < kept[k] ==> TrimSpace(parts[j]) != merged[k])
            && (forall k, l :: 0 <= k < l < n ==> kept[k] < kept[l])
            && (forall k :: 0 <= k < |added| ==> added[k] < |fetched| && TrimSpace(fetched[added[k]]) == merged[n + k])
            && (forall k, j :: 0 <= k < |added| && 0 <= j < added[k] ==> TrimSpace(fetched[j]) != merged[n + k])
            && (forall k, l :: 0 <= k < l < |added| ==> added[k] < added[l])
  {
    n := |Kept(existing)|;
    kept := UnseenPicked(Split(existing, ','), [], false);
    added := UnseenPicked(fetched, Kept(existing), true);
  }

  /** No name repeats, and the names are those mentioned before or fetched. */
  lemma MergedNames(existing: bytes, fetched: seq<bytes>)
    requires NoCommas(fetched)
    ensures Names(Merged(existing, fetched))
    ensures forall n :: n in Merged(existing, fetched) <==> Mentions(existing, n) || Fetched(fetched, n)
    ensures forall n :: n in Added(existing, fetched) <==> Fetched(fetched, n) && !Mentions(existing, n)
  {
    var parts := Split(existing, ',');
    UnseenIs(parts, [], false);
    UnseenIs(fetched, Kept(existing), true);
    JoinSplit(existing, ',');
    forall i | 0 <= i < |parts|
      ensures TrimSpace(TrimSpace(parts[i])) == TrimSpace(parts[i]) && ',' !in TrimSpace(parts[i])
    {
      TrimSpaceIs(parts[i]);
    }
    forall i | 0 <= i < |fetched|
      ensures TrimSpace(TrimSpace(fetched[i])) == TrimSpace(fetched[i]) && ',' !in TrimSpace(fetched[i])
    {
      TrimSpaceIs(fetched[i]);
    }
    DistinctAppend(Kept(existing), Added(existing, fetched));
    forall n | n in Merged(existing, fetched)
      ensures Plain(n)
    {
    }
  }

  /** A list of plain names supports exactly those names, unless it reads as the wildcard. */
  lemma PlainListSupports(names: seq<bytes>, model: bytes)
    requires Names(names) && model != ""
    ensures names == [] || names == [WILDCARD] <==> Wild(Join(names, ','))
    ensures names != [] ==> (Listed(Join(names, ','), model) <==> model in names)
  {
    if names != [] {
      SplitJoin(names, ',');
      var parts := Split(Join(names, ','), ',');
      assert parts == names;
      assert forall i :: 0 <= i < |names| ==> TrimSpace(parts[i]) == names[i];
      if Wild(Join(names, ',')) {
        assert Split("", ',') == [""] && Split(WILDCARD, ',') == [WILDCARD];
        assert names[0] != "";
      }
    }
  }

  predicate NamesReal(existing: bytes) {
    exists i :: 0 <= i < |Split(existing, ',')| &&
                TrimSpace(Split(existing, ',')[i]) != "" && TrimSpace(Split(existing, ',')[i]) != WILDCARD
  }

  /** After the merge exactly the fetched models are supported in addition. */
  ghost predicate Extends(existing: bytes, fetched: seq<bytes>) {
    forall m :: m != "" ==>
      (Supports(Join(Merged(existing, fetched), ','), m) <==> Supports(existing, m) || Fetched(fetched, m))
  }

  /** The upstream reports a model: some id that is neither blank nor the wildcard. */
  predicate ReportsModel(fetched: seq<bytes>) {
    exists i :: 0 <= i < |fetched| && TrimSpace(fetched[i]) != "" && TrimSpace(fetched[i]) != WILDCARD
  }

  /**
    When the merge does what it is for: the list names a real model, or else
    it is a wildcard list and no model is reported, or a list that is not and
    some model is.
   */
  predicate Mergeable(existing: bytes, fetched: seq<bytes>) {
    NamesReal(existing) || (Wild(existing) <==> !ReportsModel(fetched))
  }

  /** Into a list that names no real model, something is added exactly when a model is reported. */
  lemma AddsReported(existing: bytes, fetched: seq<bytes>)
    requires NoCommas(fetched) && !NamesReal(existing)
    ensures Added(existing, fetched) == [] <==> !ReportsModel(fetched)
  {
    MergedNames(existing, fetched);
    RealIsMentioned(existing);
    EmptyOrNot(Added(existing, fetched));
    if ReportsModel(fetched) {
      var i :| 0 <= i < |fetched| && TrimSpace(fetched[i]) != "" && TrimSpace(fetched[i]) != WILDCARD;
      assert Fetched(fetched, TrimSpace(fetched[i]));
    }
    forall n | n in Added(existing, fetched)
      ensures ReportsModel(fetched)
    {
      assert Fetched(fetched, n);
    }
  }

  lemma MergeExtends(existing: bytes, fetched: seq<bytes>)
    requires NoCommas(fetched)
    ensures Extends(existing, fetched) <==> Mergeable(existing, fetched)
  {
    var names := Merged(existing, fetched);
    MergedNames(existing, fetched);
    WildAfter(existing, fetched);
    if !NamesReal(existing) {
      AddsReported(existing, fetched);
    }
    if Mergeable(existing, fetched) {
      forall m | m != ""
        ensures Supports(Join(names, ','), m) <==> Supports(existing, m) || Fetched(fetched, m)
      {
        PlainListSupports(names, m);
      }
    } else {
      var m := Strange(|Join(names, ',')| + |existing| + 1);
      PlainListSupports(names, m);
      NotListed(Join(names, ','), m);
      NotListed(existing, m);
      if Wild(existing) {
        assert Supports(existing, m) && !Supports(Join(names, ','), m);
      } else {
        assert Added(existing, fetched) == [] && m !in Added(existing, fetched);
        assert Supports(Join(names, ','), m) && !Supports(existing, m);
      }
    }
  }

  lemma FirstTwoDiffer(names: seq<bytes>)
    requires Distinct(names)
    ensures |names| < 2 || names[0] != names[1]
  {
  }

  lemma OnlyWildcards(names: seq<bytes>)
    requires Distinct(names) && forall n :: n in names ==> n == WILDCARD
    ensures names == [] || names == [WILDCARD]
  {
    forall i | 0 <= i < |names|
      ensures names[i] == WILDCARD
    {
      assert names[i] in names;
    }
    FirstTwoDiffer(names);
  }

  lemma RealIsMentioned(existing: bytes)
    ensures NamesReal(existing) <==> exists n :: Mentions(existing, n) && n != WILDCARD
    ensures NamesReal(existing) ==> !Wild(existing)
  {
    var parts := Split(existing, ',');
    assert Split("", ',') == [""] && Split(WILDCARD, ',') == [WILDCARD];
    if NamesReal(existing) {
      var i :| 0 <= i < |parts| && TrimSpace(parts[i]) != "" && TrimSpace(parts[i]) != WILDCARD;
      assert Mentions(existing, TrimSpace(parts[i]));
    }
  }

  /** The merged list reads as the wildcard exactly when no real model is named in the end. */
  lemma WildAfter(existing: bytes, fetched: seq<bytes>)
    requires NoCommas(fetched)
    ensures Wild(Join(Merged(existing, fetched), ',')) <==> !NamesReal(existing) && Added(existing, fetched) == []
    ensures NamesReal(existing) ==> !Wild(existing)
  {
    var names := Merged(existing, fetched);
    MergedNames(existing, fetched);
    PlainListSupports(names, "x");
    RealIsMentioned(existing);
    if NamesReal(existing) {
      var n :| Mentions(existing, n) && n != WILDCARD;
      assert n in names;
    } else if Added(existing, fetched) == [] {
      forall n | n in names
        ensures n == WILDCARD
      {
        assert !Fetched(fetched, n) || n !in Added(existing, fetched);
      }
      OnlyWildcards(names);
    } else {
      var n := Added(existing, fetched)[0];
      assert n in Added(existing, fetched) && n in names && n != WILDCARD;
    }
  }

  function Strange(n: nat): bytes {
    if n == 0 then "" else "x" + Strange(n - 1)
  }

  lemma {:induction false} StrangeLength(n: nat)
    ensures |Strange(n)| == n
  {
    if n == 0 {
    } else {
      StrangeLength(n - 1);
    }
  }

  lemma {:induction false} PartsShorter(s: bytes, c: char)
    ensures forall i :: 0 <= i < |Split(s, c)| ==> |Split(s, c)[i]| <= |s|
    decreases |s|
  {
    var i := IndexByte(s, c);
    if i == |s| {
    } else {
      PartsShorter(s[i + 1..], c);
    }
  }

  lemma NotListed(models: bytes, m: bytes)
    requires exists n: nat :: n > |models| && m == Strange(n)
    ensures !Listed(models, m) && m != ""
  {
    var n: nat :| n > |models| && m == Strange(n);
    StrangeLength(n);
    PartsShorter(models, ',');
    var parts := Split(models, ',');
    forall i | 0 <= i < |parts|
      ensures TrimSpace(parts[i]) != m
    {
      TrimLeftIs(parts[i]);
      TrimRightIs(TrimLeft(parts[i]));
    }
  }

  // ----- Merging again.

  lemma {:induction false} UnseenOfPlain(names: seq<bytes>, seen: seq<bytes>, star: bool)
    requires Names(names)
    requires forall i :: 0 <= i < |names| ==> names[i] !in seen && (star ==> names[i] != WILDCARD)
    ensures Unseen(names, seen, star) == names
    decreases names
  {
    if names == [] {
    } else {
      assert names[0] == TrimSpace(names[0]);
      UnseenOfPlain(names[1..], seen + [names[0]], star);
    }
  }

  /** New plain ids other than the star are put behind the names of a plain list, both in their order. */
  lemma MergeAppends(names: seq<bytes>, fetched: seq<bytes>)
    requires Names(names) && names != [] && Names(fetched)
    requires forall i :: 0 <= i < |fetched| ==> fetched[i] !in names && fetched[i] != "*"
    ensures Merged(Join(names, ','), fetched) == names + fetched && Added(Join(names, ','), fetched) == fetched
  {
    SplitJoin(names, ',');
    UnseenOfPlain(names, [], false);
    UnseenOfPlain(fetched, names, true);
  }

  /** A name is in the merged list if it stands in the old one, or was fetched and is not the star. */
  lemma MergedMeans(existing: bytes, fetched: seq<bytes>, name: bytes)
    requires NoCommas(fetched)
    ensures name in Merged(existing, fetched) <==>
            && name != ""
            && (InList(existing, name)
                || (name != "*" && exists i :: 0 <= i < |fetched| && TrimSpace(fetched[i]) == name))
  {
    MergedNames(existing, fetched);
    assert InList(existing, name) <==> Listed(existing, name);
  }

  /** Merging the same ids a second time adds nothing and returns the same list. */
  lemma MergeTwice(existing: bytes, fetched: seq<bytes>)
    requires NoCommas(fetched)
    ensures var once := Join(Merged(existing, fetched), ',');
            Added(once, fetched) == [] && Join(Merged(once, fetched), ',') == once
  {
    var names := Merged(existing, fetched);
    var once := Join(names, ',');
    MergedNames(existing, fetched);
    MergedNames(once, fetched);
    if names == [] {
      assert Split(once, ',') == [""];
      assert Kept(once) == [];
    } else {
      SplitJoin(names, ',');
      UnseenOfPlain(names, [], false);
      assert Kept(once) == names;
    }
    forall n
      ensures n !in Added(once, fetched)
    {
      if Fetched(fetched, n) {
        assert n in names;
        PlainListSupports(names, n);
      }
    }
    EmptyOrNot(Added(once, fetched));
    assert Kept(once) + [] == Kept(once);
  }

  lemma EmptyOrNot(s: seq<bytes>)
    ensures s == [] || exists n :: n in s
  {
    if s != [] {
      assert s[0] in s;
    }
  }
}
