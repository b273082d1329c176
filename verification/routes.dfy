/**
  The legacy proxy's routes: the numbered store, the prefix cache built from
  it, and longest-prefix matching over the cache in any iteration order.
 */
module Routes {
  import opened Bytes
  import opened Sequences

  datatype Route = Route(id: int, prefix: bytes, upstream: bytes, enable: bool)

  function Enabled(routes: seq<Route>): seq<Route> {
    if routes == [] then []
    else (if routes[0].enable then [routes[0]] else []) + Enabled(routes[1..])
  }

  lemma {:induction false} EnabledAppend(a: seq<Route>, b: seq<Route>)
    ensures Enabled(a + b) == Enabled(a) + Enabled(b)
  {
    if a == [] {
      assert a + b == b;
    } else {
      assert (a + b)[1..] == a[1..] + b;
      EnabledAppend(a[1..], b);
      Associates(if a[0].enable then [a[0]] else [], Enabled(a[1..]), Enabled(b));
    }
  }

  lemma {:induction false} EnabledAre(routes: seq<Route>)
    ensures forall r :: r in Enabled(routes) <==> r in routes && r.enable
  {
    if routes == [] {
    } else {
      EnabledAre(routes[1..]);
    }
  }

  predicate UniqueIds(routes: seq<Route>) {
    forall i, j :: 0 <= i < j < |routes| ==> routes[i].id != routes[j].id
  }

  class Store {
    var routes: seq<Route>
    var next: int

    predicate Valid()
      reads this
    {
      UniqueIds(routes) && forall i :: 0 <= i < |routes| ==> routes[i].id < next
    }

    constructor ()
      ensures Valid() && routes == []
    {
      routes := [];
      next := 1;
    }

    method Insert(r: Route) returns (id: int)
      requires Valid()
      modifies this
      ensures Valid() && id == old(next) && next == old(next) + 1
      ensures routes == old(routes) + [r.(id := id)]
    {
      id := next;
      next := next + 1;
      routes := routes + [r.(id := id)];
    }

    method Update(id: int, r: Route) returns (found: bool)
      requires Valid()
      modifies this`routes
      ensures Valid() && |routes| == |old(routes)|
      ensures found <==> exists i :: 0 <= i < |old(routes)| && old(routes)[i].id == id
      ensures forall i :: 0 <= i < |routes| ==>
                routes[i] == if old(routes)[i].id == id then r.(id := id) else old(routes)[i]
    {
      for i := 0 to |routes|
        invariant routes == old(routes)
        invariant forall j :: 0 <= j < i ==> routes[j].id != id
      {
        if routes[i].id == id {
          routes := routes[i := r.(id := id)];
          return true;
        }
      }
      return false;
    }

    method Delete(id: int) returns (found: bool)
      requires Valid()
      modifies this`routes
      ensures Valid()
      ensures found <==> exists i :: 0 <= i < |old(routes)| && old(routes)[i].id == id
      ensures !found ==> routes == old(routes)
      ensures found ==> exists i :: 0 <= i < |old(routes)| && old(routes)[i].id == id
                          && routes == old(routes)[..i] + old(routes)[i + 1..]
    {
      for i := 0 to |routes|
        invariant routes == old(routes)
        invariant forall j :: 0 <= j < i ==> routes[j].id != id
      {
        if routes[i].id == id {
          routes := routes[..i] + routes[i + 1..];
          return true;
        }
      }
      return false;
    }

    method GetAllEnabled() returns (out: seq<Route>)
      ensures out == Enabled(routes)
    {
      out := [];
      for i := 0 to |routes|
        invariant out == Enabled(routes[..i])
      {
        EnabledAppend(routes[..i], [routes[i]]);
        assert routes[..i + 1] == routes[..i] + [routes[i]];
        if routes[i].enable {
          out := out + [routes[i]];
        }
      }
      assert routes[..|routes|] == routes;
    }
  }

  // ----- What a lookup should return, over the plain list of enabled routes.

  predicate Matches(r: Route, path: bytes) {
    r.prefix != "" && r.prefix <= path
  }

  /**
    Route `i` answers `path`: it matches, no longer prefix does, and it is the
    last one with its prefix.
   */
  predicate Answers(routes: seq<Route>, i: nat, path: bytes) {
    && i < |routes|
    && Matches(routes[i], path)
    && (forall j :: 0 <= j < |routes| && Matches(routes[j], path) ==> |routes[j].prefix| <= |routes[i].prefix|)
    && (forall j :: i < j < |routes| ==> routes[j].prefix != routes[i].prefix)
  }

  /** At most one route answers. */
  lemma AnswerIsUnique(routes: seq<Route>, i: nat, j: nat, path: bytes)
    requires Answers(routes, i, path) && Answers(routes, j, path)
    ensures i == j
  {
    assert routes[i].prefix == path[..|routes[i].prefix|];
    assert routes[j].prefix == path[..|routes[j].prefix|];
  }

  lemma AnswersMeans(routes: seq<Route>, i: nat, path: bytes)
    ensures Answers(routes, i, path) <==>
            && i < |routes| && routes[i].prefix != "" && routes[i].prefix <= path
            && (forall j :: 0 <= j < |routes| && routes[j].prefix <= path ==>
                  |routes[j].prefix| <= |routes[i].prefix|)
            && (forall j :: i < j < |routes| ==> routes[j].prefix != routes[i].prefix)
  {
    if i < |routes| && Matches(routes[i], path) {
      forall j | 0 <= j < |routes| && routes[j].prefix <= path && !Matches(routes[j], path)
        ensures |routes[j].prefix| <= |routes[i].prefix|
      {
      }
    }
  }

  lemma AnswersFor(routes: seq<Route>, path: bytes, r: Route)
    requires exists i: nat :: Answers(routes, i, path) && routes[i] == r
    ensures exists i :: && 0 <= i < |routes| && routes[i] == r
                        && routes[i].prefix != "" && routes[i].prefix <= path
                        && (forall j :: 0 <= j < |routes| && routes[j].prefix <= path ==>
                              |routes[j].prefix| <= |routes[i].prefix|)
                        && (forall j :: i < j < |routes| ==> routes[j].prefix != routes[i].prefix)
  {
    var i: nat :| Answers(routes, i, path) && routes[i] == r;
    AnswersMeans(routes, i, path);
  }

  /** The cache: for every prefix, the last route stored under it. */
  predicate Caches(cache: map<bytes, Route>, routes: seq<Route>) {
    && (forall p :: p in cache ==> CachedFrom(cache, routes, p))
    && (forall r :: r in routes ==> r.prefix in cache)
  }

  predicate CachedFrom(cache: map<bytes, Route>, routes: seq<Route>, prefix: bytes)
    requires prefix in cache
  {
    exists i :: 0 <= i < |routes| && LastWith(routes, i, prefix) && routes[i] == cache[prefix]
  }

  predicate LastWith(routes: seq<Route>, i: nat, prefix: bytes) {
    && i < |routes|
    && routes[i].prefix == prefix
    && (forall j :: i < j < |routes| ==> routes[j].prefix != prefix)
  }

  class RouteCache {
    var cache: Option<map<bytes, Route>>

    constructor ()
      ensures cache == None
    {
      cache := None;
    }

    method Refresh(store: Store)
      modifies this
      ensures cache.Some? && Caches(cache.value, Enabled(store.routes))
    {
      var routes := store.GetAllEnabled();
      var newMap: map<bytes, Route> := map[];
      for i := 0 to |routes|
        invariant Caches(newMap, routes[..i])
      {
        StoreCaches(newMap, routes, i);
        newMap := newMap[routes[i].prefix := routes[i]];
      }
      assert routes[..|routes|] == routes;
      cache := Some(newMap);
    }

    /** Longest match; the map is visited in any order. */
    method GetRoute(path: bytes, ghost routes: seq<Route>) returns (found: Option<Route>)
      requires cache.Some? ==> Caches(cache.value, routes)
      ensures found.Some? ==> exists i: nat :: Answers(routes, i, path) && routes[i] == found.value
      ensures found.Some? ==>
                exists i :: && 0 <= i < |routes| && routes[i] == found.value
                            && routes[i].prefix != "" && routes[i].prefix <= path
                            && (forall j :: 0 <= j < |routes| && routes[j].prefix <= path ==>
                                  |routes[j].prefix| <= |routes[i].prefix|)
                            && (forall j :: i < j < |routes| ==> routes[j].prefix != routes[i].prefix)
      ensures cache.Some? ==>
                (found.None? <==> forall i :: 0 <= i < |routes| ==>
                                    routes[i].prefix == "" || !(routes[i].prefix <= path))
      ensures cache.None? ==> found.None?
    {
      if cache == None {
        return None;
      }
      var rc := cache.value;
      var matched: Option<Route> := None;
      var longest: bytes := "";
      var todo := rc.Keys;
      while todo != {}
        invariant todo <= rc.Keys
        invariant matched.None? ==> longest == ""
        invariant matched.Some? ==>
                    longest in rc && rc[longest] == matched.value && longest != "" && longest <= path
        invariant forall p :: p in rc && p !in todo && p <= path ==> |p| <= |longest|
        decreases |todo|
      {
        var prefix :| prefix in todo;
        todo := todo - {prefix};
        if |prefix| > |longest| && |path| >= |prefix| && path[..|prefix|] == prefix {
          longest := prefix;
          matched := Some(rc[prefix]);
        }
      }
      found := matched;
      LongestAnswers(rc, routes, path, longest);
      if found.Some? {
        AnswersFor(routes, path, found.value);
      }
    }
  }

  lemma StoreCaches(cache: map<bytes, Route>, routes: seq<Route>, n: nat)
    requires n < |routes| && Caches(cache, routes[..n])
    ensures Caches(cache[routes[n].prefix := routes[n]], routes[..n + 1])
  {
    var last := routes[n];
    var more := cache[last.prefix := last];
    forall p | p in more
      ensures CachedFrom(more, routes[..n + 1], p)
    {
      StoredStill(cache, routes, n, p);
    }
    forall r | r in routes[..n + 1]
      ensures r.prefix in more
    {
      assert r == last || r in routes[..n];
    }
  }

  lemma StoredStill(cache: map<bytes, Route>, routes: seq<Route>, n: nat, p: bytes)
    requires n < |routes| && (p == routes[n].prefix || (p in cache && CachedFrom(cache, routes[..n], p)))
    ensures CachedFrom(cache[routes[n].prefix := routes[n]], routes[..n + 1], p)
  {
    var more, all := cache[routes[n].prefix := routes[n]], routes[..n + 1];
    if p == routes[n].prefix {
      assert LastWith(all, n, p) && all[n] == more[p];
    } else {
      var i :| 0 <= i < n && LastWith(routes[..n], i, p) && routes[..n][i] == cache[p];
      assert forall j :: 0 <= j < n ==> all[j] == routes[..n][j];
      assert LastWith(all, i, p) && all[i] == more[p];
    }
  }

  /** What a refreshed cache holds, in terms of the store. */
  lemma CachesMeans(cache: map<bytes, Route>, routes: seq<Route>, prefix: bytes)
    requires Caches(cache, Enabled(routes))
    ensures prefix in cache <==> exists r :: r in routes && r.enable && r.prefix == prefix
    ensures prefix in cache ==> cache[prefix] in routes && cache[prefix].enable && cache[prefix].prefix == prefix
  {
    EnabledAre(routes);
    if prefix in cache {
      assert CachedFrom(cache, Enabled(routes), prefix);
      assert cache[prefix] in Enabled(routes);
    }
    if r :| r in routes && r.enable && r.prefix == prefix {
      assert r in Enabled(routes);
    }
  }

  lemma LongestAnswers(cache: map<bytes, Route>, routes: seq<Route>, path: bytes, longest: bytes)
    requires Caches(cache, routes)
    requires longest == "" || (longest in cache && longest <= path)
    requires forall p :: p in cache && p <= path ==> |p| <= |longest|
    ensures longest == "" ==> forall i :: 0 <= i < |routes| ==> !Matches(routes[i], path)
    ensures longest != "" ==> exists i: nat :: Answers(routes, i, path) && routes[i] == cache[longest]
    ensures longest != "" ==> exists i :: 0 <= i < |routes| && Matches(routes[i], path)
  {
    forall i | 0 <= i < |routes| && Matches(routes[i], path)
      ensures |routes[i].prefix| <= |longest|
    {
      assert routes[i] in routes;
    }
    if longest != "" {
      assert CachedFrom(cache, routes, longest);
      var i :| 0 <= i < |routes| && LastWith(routes, i, longest) && routes[i] == cache[longest];
      assert Matches(routes[i], path);
      assert Answers(routes, i, path);
    }
  }
}
