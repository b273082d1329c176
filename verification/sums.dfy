/** Totals over lists of records. */
module Sums {

  function Total<T(!new)>(s: seq<T>, f: T -> int): int {
    if s == [] then 0 else Total(s[..|s| - 1], f) + f(s[|s| - 1])
  }

  /** Counts the occurrences of one value. */
  function Is<T(==)>(x: T): T -> int {
    (y: T) => if y == x then 1 else 0
  }

  lemma TotalPush<T(!new)>(s: seq<T>, x: T, f: T -> int)
    ensures Total(s + [x], f) == Total(s, f) + f(x)
  {
    assert (s + [x])[..|s|] == s;
  }

  lemma {:induction false} TotalSet<T(!new)>(s: seq<T>, i: nat, x: T, f: T -> int)
    requires i < |s|
    ensures Total(s[i := x], f) == Total(s, f) - f(s[i]) + f(x)
  {
    var last := |s| - 1;
    if i == last {
      assert s[i := x][..last] == s[..last];
    } else {
      assert s[i := x][..last] == s[..last][i := x];
      TotalSet(s[..last], i, x, f);
    }
  }

  lemma {:induction false} TotalJoin<T(!new)>(a: seq<T>, b: seq<T>, f: T -> int)
    ensures Total(a + b, f) == Total(a, f) + Total(b, f)
  {
    if b == [] {
      assert a + b == a;
    } else {
      assert (a + b)[..|a + b| - 1] == a + b[..|b| - 1];
      TotalJoin(a, b[..|b| - 1], f);
    }
  }

  lemma {:induction false} TotalZero<T(!new)>(s: seq<T>, f: T -> int)
    requires forall i :: 0 <= i < |s| ==> f(s[i]) == 0
    ensures Total(s, f) == 0
  {
    if s == [] {
    } else {
      TotalZero(s[..|s| - 1], f);
    }
  }

  lemma Around<T>(s: seq<T>, i: nat)
    requires i < |s|
    ensures s == (s[..i] + [s[i]]) + s[i + 1..]
  {
  }

  lemma TotalAround<T(!new)>(a: seq<T>, x: T, b: seq<T>, f: T -> int)
    ensures Total((a + [x]) + b, f) == Total(a + b, f) + f(x)
  {
    TotalJoin(a, b, f);
    TotalPush(a, x, f);
    TotalJoin(a + [x], b, f);
  }

  lemma TotalSplit<T(!new)>(s: seq<T>, i: nat, f: T -> int)
    requires i < |s|
    ensures Total(s, f) == Total(s[..i] + s[i + 1..], f) + f(s[i])
  {
    Around(s, i);
    TotalAround(s[..i], s[i], s[i + 1..], f);
  }

  function Times<T(!new)>(s: seq<T>, f: T -> int): int {
    if s == [] then 1 else f(s[0]) * Times(s[1..], f)
  }

  lemma {:induction false} TimesJoin<T(!new)>(a: seq<T>, b: seq<T>, f: T -> int)
    ensures Times(a + b, f) == Times(a, f) * Times(b, f)
    ensures Times([], f) == 1 && forall x :: Times([x], f) == f(x)
  {
    assert forall x :: Times([x], f) == f(x) by {
      forall x
        ensures Times([x], f) == f(x)
      {
        assert [x][1..] == [];
      }
    }
    if a == [] {
      assert a + b == b;
    } else {
      assert (a + b)[1..] == a[1..] + b;
      TimesJoin(a[1..], b, f);
      assert f(a[0]) * (Times(a[1..], f) * Times(b, f)) == f(a[0]) * Times(a[1..], f) * Times(b, f);
    }
  }

  lemma {:induction false} CountNotNegative<T(!new)>(s: seq<T>, x: T)
    ensures Total(s, Is(x)) >= 0
  {
    if s == [] {
    } else {
      CountNotNegative(s[..|s| - 1], x);
    }
  }
}
