/**
  The specification every sliding-window limiter of the gateway refines: an
  attempt is admitted when the weight admitted less than a minute ago, plus
  the weight of the attempt, stays within the limit.  It is stated over the
  full history of admissions, which the limiters themselves never keep.
 */
module Window {
  import opened Sequences
  import Sums

  /** Sixty seconds, in nanoseconds, the unit of the clock. */
  const WINDOW: int := 60_000_000_000

  /** One recorded admission: when it happened and what it weighed. */
  datatype Hit = Hit(time: int, weight: int)

  datatype Attempt = Attempt(now: int, cost: int)

  predicate Fresh(time: int, now: int) {
    now - time < WINDOW
  }

  /** The admissions that still count at `now`, in order. */
  function Live(hits: seq<Hit>, now: int): seq<Hit> {
    if hits == [] then []
    else (if Fresh(hits[0].time, now) then [hits[0]] else []) + Live(hits[1..], now)
  }

  function Weight(hits: seq<Hit>): int {
    if hits == [] then 0 else hits[0].weight + Weight(hits[1..])
  }

  /** The specification's decision. */
  predicate Admits(history: seq<Hit>, now: int, cost: int, limit: int) {
    Weight(Live(history, now)) + cost <= limit
  }

  function Step(history: seq<Hit>, now: int, cost: int, limit: int): seq<Hit> {
    if Admits(history, now, cost, limit) then history + [Hit(now, cost)] else history
  }

  /** The history after a run of attempts under one fixed limit. */
  function Run(attempts: seq<Attempt>, limit: int): seq<Hit> {
    if attempts == [] then []
    else
      var last := attempts[|attempts| - 1];
      Step(Run(attempts[..|attempts| - 1], limit), last.now, last.cost, limit)
  }

  predicate Sorted(times: seq<int>) {
    forall i, j :: 0 <= i < j < |times| ==> times[i] <= times[j]
  }

  /** What fell inside the minute that starts at `from`. */
  function Within(hits: seq<Hit>, from: int): seq<Hit> {
    if hits == [] then []
    else (if from <= hits[0].time < from + WINDOW then [hits[0]] else []) + Within(hits[1..], from)
  }

  // ----- Unit-weight windows: the request limiters store bare times.

  function LiveTimes(times: seq<int>, now: int): seq<int> {
    if times == [] then []
    else (if Fresh(times[0], now) then [times[0]] else []) + LiveTimes(times[1..], now)
  }

  function Units(times: seq<int>): seq<Hit> {
    seq(|times|, i requires 0 <= i < |times| => Hit(times[i], 1))
  }

  lemma {:induction false} UnitsLive(times: seq<int>, now: int)
    ensures Live(Units(times), now) == Units(LiveTimes(times, now))
  {
    if times == [] {
    } else {
      assert Units(times)[1..] == Units(times[1..]);
      UnitsLive(times[1..], now);
      assert Units([times[0]]) == [Hit(times[0], 1)];
      assert Units(LiveTimes(times, now)) ==
             (if Fresh(times[0], now) then [Hit(times[0], 1)] else []) + Units(LiveTimes(times[1..], now));
    }
  }

  lemma {:induction false} UnitsWeight(times: seq<int>)
    ensures Weight(Units(times)) == |times|
  {
    if times == [] {
    } else {
      assert Units(times)[1..] == Units(times[1..]);
      UnitsWeight(times[1..]);
    }
  }

  // ----- How the live part behaves.

  lemma {:induction false} LiveAppend(a: seq<Hit>, b: seq<Hit>, now: int)
    ensures Live(a + b, now) == Live(a, now) + Live(b, now)
  {
    if a == [] {
      assert a + b == b;
    } else {
      assert (a + b)[1..] == a[1..] + b;
      LiveAppend(a[1..], b, now);
      Associates(if Fresh(a[0].time, now) then [a[0]] else [], Live(a[1..], now), Live(b, now));
    }
  }

  lemma {:induction false} WeightAppend(a: seq<Hit>, b: seq<Hit>)
    ensures Weight(a + b) == Weight(a) + Weight(b)
  {
    if a == [] {
      assert a + b == b;
    } else {
      assert (a + b)[1..] == a[1..] + b;
      WeightAppend(a[1..], b);
    }
  }

  // ----- What the specification means, hit by hit.

  /** The admissions that still count are those less than sixty seconds old, in order. */
  lemma {:induction false} LiveMeans(hits: seq<Hit>, now: int)
    ensures forall h :: h in Live(hits, now) <==> h in hits && now - h.time < 60_000_000_000
    ensures forall more :: Live(hits + more, now) == Live(hits, now) + Live(more, now)
  {
    forall more
      ensures Live(hits + more, now) == Live(hits, now) + Live(more, now)
    {
      LiveAppend(hits, more, now);
    }
    if hits == [] {
    } else {
      LiveMeans(hits[1..], now);
    }
  }

  lemma {:induction false} WeightMeans(hits: seq<Hit>, f: Hit -> int)
    requires forall h :: f(h) == h.weight
    ensures Weight(hits) == Sums.Total(hits, f)
  {
    if hits == [] {
    } else {
      var before, last := hits[..|hits| - 1], hits[|hits| - 1];
      assert hits == before + [last];
      WeightMeans(before, f);
      WeightAppend(before, [last]);
      assert [last][1..] == [];
    }
  }

  /**
    An attempt is admitted exactly if its weight and that of everything
    admitted less than sixty seconds ago stay within the limit.
   */
  lemma {:induction false} AdmitsMeans(history: seq<Hit>, now: int, cost: int, limit: int, recent: Hit -> int)
    requires forall h :: recent(h) == if now - h.time < 60_000_000_000 then h.weight else 0
    ensures Admits(history, now, cost, limit) <==> Sums.Total(history, recent) + cost <= limit
  {
    LiveWeight(history, now, recent);
  }

  lemma {:induction false} LiveWeight(hits: seq<Hit>, now: int, recent: Hit -> int)
    requires forall h :: recent(h) == if now - h.time < 60_000_000_000 then h.weight else 0
    ensures Weight(Live(hits, now)) == Sums.Total(hits, recent)
  {
    if hits == [] {
    } else {
      var before, last := hits[..|hits| - 1], hits[|hits| - 1];
      assert hits == before + [last];
      LiveWeight(before, now, recent);
      LiveAppend(before, [last], now);
      WeightAppend(Live(before, now), Live([last], now));
      assert [last][1..] == [];
    }
  }

  /** What a minute holds, hit by hit. */
  lemma {:induction false} WithinMeans(hits: seq<Hit>, from: int, inside: Hit -> int)
    requires forall h :: inside(h) == if from <= h.time < from + 60_000_000_000 then h.weight else 0
    ensures Weight(Within(hits, from)) == Sums.Total(hits, inside)
  {
    if hits == [] {
    } else {
      var before, last := hits[..|hits| - 1], hits[|hits| - 1];
      assert hits == before + [last];
      WithinMeans(before, from, inside);
      WithinAppend(before, [last], from);
      WeightAppend(Within(before, from), Within([last], from));
      assert [last][1..] == [];
    }
  }

  /** A run records each admitted attempt, when it happened and with its whole cost, and no other. */
  lemma RunMeans(attempts: seq<Attempt>, a: Attempt, limit: int, recent: Hit -> int)
    requires forall h :: recent(h) == if a.now - h.time < 60_000_000_000 then h.weight else 0
    ensures var before := Run(attempts, limit);
            Run(attempts + [a], limit)
            == before + if Sums.Total(before, recent) + a.cost <= limit then [Hit(a.now, a.cost)] else []
  {
    assert (attempts + [a])[..|attempts|] == attempts;
    AdmitsMeans(Run(attempts, limit), a.now, a.cost, limit, recent);
  }

  /** What has expired never counts again: trimming early loses nothing later. */
  lemma {:induction false} LiveLater(hits: seq<Hit>, earlier: int, later: int)
    requires earlier <= later
    ensures Live(Live(hits, earlier), later) == Live(hits, later)
  {
    if hits == [] {
    } else {
      var head := if Fresh(hits[0].time, earlier) then [hits[0]] else [];
      LiveAppend(head, Live(hits[1..], earlier), later);
      LiveLater(hits[1..], earlier, later);
      assert hits[0] == Hit(hits[0].time, hits[0].weight);
      assert Live([], later) == [];
      assert [hits[0]][1..] == [];
    }
  }

  /** Two records that agree now agree at every later time. */
  lemma AgreeLater(a: seq<Hit>, b: seq<Hit>, earlier: int, later: int)
    requires earlier <= later
    requires Live(a, earlier) == Live(b, earlier)
    ensures Live(a, later) == Live(b, later)
  {
    LiveLater(a, earlier, later);
    LiveLater(b, earlier, later);
  }

  /** In a sorted window the live part is what is left after the expired prefix. */
  lemma {:induction false} DropExpiredPrefix(times: seq<int>, now: int, k: nat)
    requires Sorted(times)
    requires k <= |times|
    requires forall i :: 0 <= i < k ==> !Fresh(times[i], now)
    requires k < |times| ==> Fresh(times[k], now)
    ensures times[k..] == LiveTimes(times, now)
  {
    if times == [] {
    } else {
      if k == 0 {
        assert forall i :: 0 <= i < |times| ==> Fresh(times[i], now);
        AllFresh(times, now);
      } else {
        DropExpiredPrefix(times[1..], now, k - 1);
        assert times[1..][k - 1..] == times[k..];
      }
    }
  }

  lemma {:induction false} AllFresh(times: seq<int>, now: int)
    requires forall i :: 0 <= i < |times| ==> Fresh(times[i], now)
    ensures LiveTimes(times, now) == times
  {
    if times == [] {
    } else {
      AllFresh(times[1..], now);
    }
  }

  // ----- The safety theorem.

  predicate Clocked(attempts: seq<Attempt>) {
    forall i, j :: 0 <= i < j < |attempts| ==> attempts[i].now <= attempts[j].now
  }

  /** What was admitted weighs something and is not later than `now`. */
  predicate AdmittedBy(hits: seq<Hit>, now: int) {
    forall i :: 0 <= i < |hits| ==> hits[i].weight > 0 && hits[i].time <= now
  }

  lemma {:induction false} RunTimes(attempts: seq<Attempt>, limit: int)
    requires Clocked(attempts)
    requires forall i :: 0 <= i < |attempts| ==> attempts[i].cost > 0
    ensures if attempts == [] then Run(attempts, limit) == []
            else AdmittedBy(Run(attempts, limit), attempts[|attempts| - 1].now)
  {
    if attempts == [] {
    } else {
      var init, last := attempts[..|attempts| - 1], attempts[|attempts| - 1];
      RunTimes(init, limit);
      assert init != [] ==> init[|init| - 1] == attempts[|attempts| - 2];
      assert AdmittedBy(Run(init, limit), last.now);
      var before, after := Run(init, limit), Run(attempts, limit);
      assert after == before || after == before + [Hit(last.now, last.cost)];
    }
  }

  lemma {:induction false} WithinAppend(a: seq<Hit>, b: seq<Hit>, from: int)
    ensures Within(a + b, from) == Within(a, from) + Within(b, from)
  {
    if a == [] {
      assert a + b == b;
    } else {
      assert (a + b)[1..] == a[1..] + b;
      WithinAppend(a[1..], b, from);
      Associates(if from <= a[0].time < from + WINDOW then [a[0]] else [], Within(a[1..], from), Within(b, from));
    }
  }

  /** A minute that contains `now` holds no more than what is live at `now`. */
  lemma {:induction false} WithinIsLive(hits: seq<Hit>, from: int, now: int)
    requires forall i :: 0 <= i < |hits| ==> hits[i].weight > 0
    requires from <= now < from + WINDOW
    ensures Weight(Within(hits, from)) <= Weight(Live(hits, now))
  {
    if hits == [] {
    } else {
      WithinIsLive(hits[1..], from, now);
      WeightAppend(if from <= hits[0].time < from + WINDOW then [hits[0]] else [], Within(hits[1..], from));
      WeightAppend(if Fresh(hits[0].time, now) then [hits[0]] else [], Live(hits[1..], now));
      assert Weight([hits[0]]) == hits[0].weight;
    }
  }

  /**
    Under a fixed limit and a clock that does not run backwards, no minute,
    wherever it starts, holds more admitted weight than the limit.
   */
  lemma {:induction false} NoMinuteOverflows(attempts: seq<Attempt>, limit: int, from: int)
    requires limit >= 0
    requires Clocked(attempts)
    requires forall i :: 0 <= i < |attempts| ==> attempts[i].cost > 0
    ensures Weight(Within(Run(attempts, limit), from)) <= limit
  {
    if attempts == [] {
    } else {
      var before := attempts[..|attempts| - 1];
      var last := attempts[|attempts| - 1];
      var history := Run(before, limit);
      var hit := Hit(last.now, last.cost);
      NoMinuteOverflows(before, limit, from);
      if Admits(history, last.now, last.cost, limit) {
        RunTimes(before, limit);
        WithinRecorded(history, hit, from);
        if from <= last.now < from + WINDOW {
          WithinIsLive(history, from, last.now);
        }
      }
    }
  }

  lemma {:induction false} LiveIsWithin(hits: seq<Hit>, now: int)
    requires forall i :: 0 <= i < |hits| ==> hits[i].time <= now
    ensures Live(hits, now) == Within(hits, now - WINDOW + 1)
  {
    if hits == [] {
    } else {
      LiveIsWithin(hits[1..], now);
    }
  }

  /**
    The limiter refuses only what it has to: when no minute overflows yet, an
    attempt is admitted exactly if recording it makes no minute overflow.
   */
  lemma AdmitsExactlyWhatFits(history: seq<Hit>, now: int, cost: int, limit: int)
    requires forall i :: 0 <= i < |history| ==> history[i].weight > 0 && history[i].time <= now
    requires forall from :: Weight(Within(history, from)) <= limit
    ensures Admits(history, now, cost, limit) <==>
            forall from :: Weight(Within(history + [Hit(now, cost)], from)) <= limit
  {
    var recorded := history + [Hit(now, cost)];
    if Admits(history, now, cost, limit) {
      forall from
        ensures Weight(Within(recorded, from)) <= limit
      {
        WithinRecorded(history, Hit(now, cost), from);
        if from <= now < from + WINDOW {
          WithinIsLive(history, from, now);
        }
      }
    } else {
      var from := now - WINDOW + 1;
      WithinRecorded(history, Hit(now, cost), from);
      LiveIsWithin(history, now);
      assert Weight(Within(recorded, from)) > limit;
    }
  }

  lemma WithinRecorded(history: seq<Hit>, hit: Hit, from: int)
    ensures Weight(Within(history + [hit], from)) ==
            Weight(Within(history, from)) + if from <= hit.time < from + WINDOW then hit.weight else 0
  {
    WithinAppend(history, [hit], from);
    WeightAppend(Within(history, from), Within([hit], from));
    assert [hit][1..] == [] && Weight([hit]) == hit.weight;
  }
}
