/**
  The key counters that rotate upstream keys.  One map, keyed by number, serves
  both the relay's channels and the legacy proxy's routes.
 */
module Rotation {
  import opened Sequences

  /** Which of the two callers asks. */
  datatype User = RelayBuild | ProxyRequest

  class KeyCounters {
    var counters: map<int, nat>

    constructor ()
      ensures counters == map[]
    {
      counters := map[];
    }

    /** The relay stores a fresh counter without counting the build that made it. */
    method NextForChannel(id: int) returns (idx: nat)
      modifies this
      ensures idx == if id in old(counters) then old(counters)[id] else 0
      ensures counters == old(counters)[id := if id in old(counters) then old(counters)[id] + 1 else 0]
      ensures idx == Asked(old(counters), id) && counters[id] == CountAfter(old(counters), id, RelayBuild)
    {
      if id in counters {
        counters := counters[id := counters[id] + 1];
        idx := counters[id] - 1;
      } else {
        idx := 0;
        counters := counters[id := 0];
      }
    }

    /** The proxy counts every request to a route with more than one key. */
    method NextForRoute(id: int, keyCount: nat) returns (idx: nat)
      modifies this
      ensures idx == if keyCount > 1 && id in old(counters) then old(counters)[id] else 0
      ensures counters == if keyCount <= 1 then old(counters)
                          else old(counters)[id := if id in old(counters) then old(counters)[id] + 1 else 1]
      ensures keyCount > 1 ==>
                idx == Asked(old(counters), id) && counters[id] == CountAfter(old(counters), id, ProxyRequest)
    {
      idx := 0;
      if keyCount > 1 {
        if id !in counters {
          counters := counters[id := 0];
        }
        counters := counters[id := counters[id] + 1];
        idx := counters[id] - 1;
      }
    }
  }

  /** The count a request leaves, as the two calls above leave it. */
  function CountAfter(counters: map<int, nat>, id: int, user: User): nat {
    if id in counters then counters[id] + 1 else if user == RelayBuild then 0 else 1
  }

  /** The indices handed out by a run of requests for one number. */
  function Indices(counters: map<int, nat>, id: int, users: seq<User>): seq<nat>
    decreases users
  {
    if users == [] then []
    else [Asked(counters, id)] + Indices(counters[id := CountAfter(counters, id, users[0])], id, users[1..])
  }

  lemma {:induction false} IndicesCountUp(counters: map<int, nat>, id: int, users: seq<User>)
    requires id in counters
    ensures |Indices(counters, id, users)| == |users|
    ensures forall k :: 0 <= k < |users| ==> Indices(counters, id, users)[k] == counters[id] + k
    decreases users
  {
    if users == [] {
    } else {
      var next := counters[id := CountAfter(counters, id, users[0])];
      IndicesCountUp(next, id, users[1..]);
    }
  }

  /** Some index in the stretch of `n` from `from` starts at position `p` of `n` keys. */
  predicate StartsAt(indices: seq<nat>, from: nat, n: nat, k: nat, p: nat)
    requires n > 0
  {
    k < n && from + k < |indices| && indices[from + k] % n == p
  }

  /** The `n` requests from `from` on start once at each of `n` positions. */
  ghost predicate Fair(indices: seq<nat>, from: nat, n: nat)
    requires n > 0
  {
    forall p: nat :: p < n ==> Once(indices, from, n, p)
  }

  ghost predicate Once(indices: seq<nat>, from: nat, n: nat, p: nat)
    requires n > 0
  {
    && (exists k :: StartsAt(indices, from, n, k, p))
    && (forall k, l :: StartsAt(indices, from, n, k, p) && StartsAt(indices, from, n, l, p) ==> k == l)
  }

  /** The index each counted request of one number gets, the first asking as `users[0]`. */
  lemma IndicesAre(id: int, users: seq<User>)
    requires users != []
    ensures var indices := Indices(map[], id, users);
            && |indices| == |users| && indices[0] == 0
            && forall k :: 1 <= k < |users| ==> indices[k] == k - if users[0] == RelayBuild then 1 else 0
  {
    var base: nat := CountAfter(map[], id, users[0]);
    var next: map<int, nat> := map[][id := base];
    IndicesCountUp(next, id, users[1..]);
    assert Indices(map[], id, users) == [0] + Indices(next, id, users[1..]);
  }

  /**
    A stretch of `n` requests for one number is fair exactly if it does not
    begin with the first request, or the first request was the proxy's, or
    there is one key: the first two relay builds both start at the first key.
   */
  lemma RotationIsFair(id: int, users: seq<User>, from: nat, n: nat)
    requires n > 0 && from + n <= |users|
    ensures Fair(Indices(map[], id, users), from, n) <==> from > 0 || users[0] == ProxyRequest || n == 1
  {
    var indices := Indices(map[], id, users);
    IndicesAre(id, users);
    if from == 0 && users[0] == RelayBuild && n > 1 {
      assert StartsAt(indices, 0, n, 0, 0) && StartsAt(indices, 0, n, 1, 0);
      assert !Once(indices, 0, n, 0);
    } else {
      forall p: nat | p < n
        ensures Once(indices, from, n, p)
      {
        OnceInRow(indices, from, n, p);
      }
    }
  }

  /** Counting up from any number meets every remainder once in `n` turns. */
  lemma OnceInRow(indices: seq<nat>, from: nat, n: nat, p: nat)
    requires p < n && from + n <= |indices|
    requires forall j :: from <= j < from + n ==> indices[j] == indices[from] + (j - from)
    ensures Once(indices, from, n, p)
  {
    var start := indices[from];
    var k := if p >= start % n then p - start % n else p + n - start % n;
    Wraps(start, n, p);
    assert indices[from + k] == start + k;
    assert StartsAt(indices, from, n, k, p);
    forall k, l | StartsAt(indices, from, n, k, p) && StartsAt(indices, from, n, l, p)
      ensures k == l
    {
      SameRemainder(start + k, start + l, n);
    }
  }

  /**
    Routes and channels of the same number take their turns together: of any
    two requests after the first, whoever makes them, both start at the same
    key exactly if the number of turns between them is a multiple of the keys.
    With a route's request after every build, a channel of two keys starts all
    its builds at one of them.
   */
  lemma TurnsAreShared(id: int, users: seq<User>, i: nat, j: nat, n: nat)
    requires n > 0 && 0 < i <= j < |users|
    ensures var indices := Indices(map[], id, users);
            |indices| == |users| && (indices[i] % n == indices[j] % n <==> (j - i) % n == 0)
  {
    IndicesAre(id, users);
    var a := Indices(map[], id, users)[i];
    SameTurn(a, j - i, n);
  }

  lemma SameTurn(a: nat, d: nat, n: nat)
    requires n > 0
    ensures a % n == (a + d) % n <==> d % n == 0
  {
    var q, r := d / n, d % n;
    assert d == n * q + r;
    var b := a % n;
    assert a == n * (a / n) + b;
    assert n * (a / n + q) == n * (a / n) + n * q;
    if b + r < n {
      RemainderIs(n, a / n + q, b + r);
    } else {
      assert n * (a / n + q + 1) == n * (a / n + q) + n;
      RemainderIs(n, a / n + q + 1, b + r - n);
    }
  }

  lemma Wraps(start: nat, n: nat, p: nat)
    requires p < n
    ensures var k := if p >= start % n then p - start % n else p + n - start % n;
            k < n && (start + k) % n == p
  {
    var k := if p >= start % n then p - start % n else p + n - start % n;
    var q := start / n;
    assert start == n * q + start % n;
    if p >= start % n {
      RemainderIs(n, q, p);
    } else {
      assert start + k == n * (q + 1) + p by {
        assert n * (q + 1) == n * q + n;
      }
      RemainderIs(n, q + 1, p);
    }
  }

  lemma MulGap(n: nat, p: nat, q: nat)
    requires p < q
    ensures n * p + n <= n * q
  {
    assert n * q == n * p + n * (q - p);
    assert n * (q - p) == n + n * (q - p - 1);
  }

  lemma RemainderIs(n: nat, q: nat, r: nat)
    requires r < n
    ensures (n * q + r) % n == r
  {
    var m := n * q + r;
    assert m == n * (m / n) + m % n;
    var d := m / n;
    if d < q {
      MulGap(n, d, q);
    } else if d > q {
      MulGap(n, q, d);
    }
  }

  lemma SameRemainder(a: nat, b: nat, n: nat)
    requires n > 0 && a % n == b % n && a < b + n && b < a + n
    ensures a == b
  {
    assert a == n * (a / n) + a % n;
    assert b == n * (b / n) + b % n;
    var x, y := a / n, b / n;
    if x < y {
      MulGap(n, x, y);
    } else if y < x {
      MulGap(n, y, x);
    }
  }
}
