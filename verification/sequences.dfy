/** Facts about sequences, and counters by number. */
module Sequences {

  lemma Associates<T>(a: seq<T>, b: seq<T>, c: seq<T>)
    ensures (a + b) + c == a + (b + c)
  {
  }

  lemma EmptyFirst<T>(s: seq<T>)
    ensures [] + s == s
  {
  }

  predicate Distinct<T(==)>(s: seq<T>) {
    forall i, j :: 0 <= i < j < |s| ==> s[i] != s[j]
  }

  /** A counter that is not there counts zero. */
  function Asked(counters: map<int, nat>, id: int): nat {
    if id in counters then counters[id] else 0
  }

  /** The same places, counted from one further in front. */
  function OneOn(places: seq<nat>): seq<nat> {
    seq(|places|, k requires 0 <= k < |places| => places[k] + 1)
  }
}
