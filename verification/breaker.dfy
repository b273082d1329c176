/**
  The channel breaker when calls do not overlap: what its counters and its
  disable times say about the whole history of failures and successes.
 */
module Breaker {
  import opened Sequences

  const THRESHOLD: nat := 5

  /** Sixty seconds, in nanoseconds. */
  const COOLDOWN: int := 60_000_000_000

  datatype Event = Failed(id: int, at: int) | Succeeded(id: int)

  /** The two maps: failures in a row, and when a channel was disabled. */
  datatype Health = Health(fails: map<int, nat>, disabled: map<int, int>)

  function OnFailure(h: Health, id: int, now: int): Health {
    var n := Asked(h.fails, id) + 1;
    if n >= THRESHOLD then Health(h.fails[id := 0], h.disabled[id := now])
    else Health(h.fails[id := n], h.disabled)
  }

  function OnSuccess(h: Health, id: int): Health {
    Health(h.fails[id := 0], h.disabled - {id})
  }

  // ----- What the history says.

  /** The failures of a channel since its last success. */
  function Streak(history: seq<Event>, id: int): nat {
    if history == [] then 0
    else
      var last := history[|history| - 1];
      if last.id != id then Streak(history[..|history| - 1], id)
      else if last.Succeeded? then 0
      else Streak(history[..|history| - 1], id) + 1
  }

  /** Event `k` trips the channel: it is the fifth, tenth, ... failure in a row. */
  predicate Trips(history: seq<Event>, k: nat, id: int) {
    && k < |history|
    && history[k].Failed? && history[k].id == id
    && Streak(history[..k + 1], id) % THRESHOLD == 0
  }

  predicate NoSuccessSince(history: seq<Event>, k: nat, id: int) {
    forall j :: k < j < |history| ==> history[j] != Succeeded(id)
  }

  /** Tripped less than a minute ago, and no success since. */
  predicate CoolingDown(history: seq<Event>, id: int, now: int) {
    exists k :: 0 <= k < |history| && Trips(history, k, id) && NoSuccessSince(history, k, id)
                && now - history[k].at < COOLDOWN
  }

  lemma CoolingIs(history: seq<Event>, id: int, now: int)
    ensures CoolingDown(history, id, now) <==>
            exists k :: && 0 <= k < |history| && history[k].Failed? && history[k].id == id
                        && Streak(history[..k + 1], id) % 5 == 0 && now - history[k].at < 60_000_000_000
                        && forall j :: k < j < |history| ==> history[j] != Succeeded(id)
  {
    if CoolingDown(history, id, now) {
      var k :| 0 <= k < |history| && Trips(history, k, id) && NoSuccessSince(history, k, id)
               && now - history[k].at < COOLDOWN;
      assert history[k].Failed? && history[k].id == id && Streak(history[..k + 1], id) % 5 == 0;
    }
    if k :| && 0 <= k < |history| && history[k].Failed? && history[k].id == id
            && Streak(history[..k + 1], id) % 5 == 0 && now - history[k].at < 60_000_000_000
            && forall j :: k < j < |history| ==> history[j] != Succeeded(id) {
      assert Trips(history, k, id) && NoSuccessSince(history, k, id);
    }
  }

  /** The failures since the last success: one more with each failure, none after a success, whatever others do. */
  lemma StreakMeans(history: seq<Event>, e: Event, id: int)
    ensures Streak([], id) == 0
    ensures Streak(history + [e], id)
            == if e == Succeeded(id) then 0
               else if e.Failed? && e.id == id then Streak(history, id) + 1 else Streak(history, id)
  {
    StreakPush(history, e, id);
  }

  predicate Clocked(history: seq<Event>) {
    forall i, j :: 0 <= i < j < |history| && history[i].Failed? && history[j].Failed? ==> history[i].at <= history[j].at
  }

  // ----- The breaker.

  class ChannelHealth {
    var fails: map<int, nat>
    var disabled: map<int, int>
    ghost var history: seq<Event>

    ghost predicate Valid()
      reads this
    {
      Clocked(history) && forall id :: Describes(Health(fails, disabled), history, id)
    }

    constructor ()
      ensures Valid() && history == []
    {
      fails, disabled, history := map[], map[], [];
    }

    method MarkSuccess(id: int)
      requires Valid()
      modifies this
      ensures Valid() && history == old(history) + [Succeeded(id)]
      ensures Health(fails, disabled) == OnSuccess(old(Health(fails, disabled)), id)
    {
      ghost var next := OnSuccess(Health(fails, disabled), id);
      SuccessDescribes(Health(fails, disabled), history, id);
      fails := fails[id := 0];
      disabled := disabled - {id};
      history := history + [Succeeded(id)];
      assert Health(fails, disabled) == next;
      assert forall i :: Describes(next, history, i);
    }

    method MarkFailure(id: int, now: int) returns (tripped: bool)
      requires Valid()
      requires forall i :: 0 <= i < |history| && history[i].Failed? ==> history[i].at <= now
      modifies this
      ensures Valid() && history == old(history) + [Failed(id, now)]
      ensures Health(fails, disabled) == OnFailure(old(Health(fails, disabled)), id, now)
      ensures tripped <==> Streak(history, id) % 5 == 0
      ensures disabled == if tripped then old(disabled)[id := now] else old(disabled)
    {
      ghost var next := OnFailure(Health(fails, disabled), id, now);
      FailureDescribes(Health(fails, disabled), history, id, now);
      FailureTrips(Health(fails, disabled), history, id, now);
      if id !in fails {
        fails := fails[id := 0];
      }
      var n := fails[id] + 1;
      fails := fails[id := n];
      if n >= THRESHOLD {
        disabled := disabled[id := now];
        fails := fails[id := 0];
      }
      tripped := n >= THRESHOLD;
      history := history + [Failed(id, now)];
      assert Health(fails, disabled) == next;
    }

    /** A channel is usable when it is enabled and not cooling down. */
    method Usable(id: int, status: int, now: int) returns (ok: bool)
      requires Valid()
      ensures ok <==>
              && status == 1
              && !exists k :: && 0 <= k < |history| && history[k].Failed? && history[k].id == id
                              && Streak(history[..k + 1], id) % 5 == 0 && now - history[k].at < 60_000_000_000
                              && forall j :: k < j < |history| ==> history[j] != Succeeded(id)
      ensures Asked(fails, id) == Streak(history, id) % 5
    {
      CoolingIs(history, id, now);
      assert Describes(Health(fails, disabled), history, id);
      CoolingMeans(Health(fails, disabled), history, id, now);
      if status != 1 {
        return false;
      }
      if id in disabled {
        if now - disabled[id] < COOLDOWN {
          return false;
        }
      }
      return true;
    }
  }

  // ----- How the maps describe the history.

  /** `k` is the last trip of the channel with no success after it. */
  predicate LastTrip(history: seq<Event>, k: nat, id: int) {
    && Trips(history, k, id) && NoSuccessSince(history, k, id)
    && forall j :: k < j < |history| ==> !Trips(history, j, id)
  }

  predicate StandingTrip(history: seq<Event>, id: int) {
    exists k :: 0 <= k < |history| && LastTrip(history, k, id)
  }

  ghost predicate Describes(h: Health, history: seq<Event>, id: int) {
    && Asked(h.fails, id) == Streak(history, id) % THRESHOLD
    && (id in h.disabled <==> StandingTrip(history, id))
    && (forall k :: 0 <= k < |history| && LastTrip(history, k, id) ==>
          id in h.disabled && h.disabled[id] == history[k].at)
  }

  lemma StreakPush(history: seq<Event>, e: Event, id: int)
    ensures Streak(history + [e], id)
            == if e.id != id then Streak(history, id) else if e.Succeeded? then 0 else Streak(history, id) + 1
  {
    assert (history + [e])[..|history|] == history;
  }

  lemma TripsPush(history: seq<Event>, e: Event, k: nat, id: int)
    requires k < |history|
    ensures Trips(history + [e], k, id) == Trips(history, k, id)
    ensures NoSuccessSince(history + [e], k, id) == (NoSuccessSince(history, k, id) && e != Succeeded(id))
  {
    var more := history + [e];
    assert more[..k + 1] == history[..k + 1];
    if NoSuccessSince(more, k, id) {
      assert forall j :: k < j < |history| ==> history[j] == more[j];
      assert more[|history|] == e;
    }
  }

  /** An event that is not a trip: the standing trips are the old ones a success has not cleared. */
  lemma StandingPush(history: seq<Event>, e: Event, id: int)
    requires !Trips(history + [e], |history|, id)
    ensures forall k :: 0 <= k < |history| ==>
              (LastTrip(history + [e], k, id) <==> LastTrip(history, k, id) && e != Succeeded(id))
    ensures StandingTrip(history + [e], id) <==> StandingTrip(history, id) && e != Succeeded(id)
  {
    var more := history + [e];
    forall k | 0 <= k < |history|
      ensures LastTrip(more, k, id) <==> LastTrip(history, k, id) && e != Succeeded(id)
    {
      TripsPush(history, e, k, id);
      forall j | k < j < |history|
        ensures Trips(more, j, id) == Trips(history, j, id)
      {
        TripsPush(history, e, j, id);
      }
    }
    if StandingTrip(history, id) && e != Succeeded(id) {
      var k :| 0 <= k < |history| && LastTrip(history, k, id);
      assert LastTrip(more, k, id);
    }
    if StandingTrip(more, id) {
      var k :| 0 <= k < |more| && LastTrip(more, k, id);
      assert k < |history|;
      assert LastTrip(history, k, id);
    }
  }

  lemma SuccessDescribes(h: Health, history: seq<Event>, id: int)
    requires Clocked(history) && forall i :: Describes(h, history, i)
    ensures Clocked(history + [Succeeded(id)])
    ensures forall i :: Describes(OnSuccess(h, id), history + [Succeeded(id)], i)
  {
    forall i
      ensures Describes(OnSuccess(h, id), history + [Succeeded(id)], i)
    {
      assert Describes(h, history, i);
      StreakPush(history, Succeeded(id), i);
      StandingPush(history, Succeeded(id), i);
    }
  }

  lemma FailureDescribes(h: Health, history: seq<Event>, id: int, now: int)
    requires Clocked(history) && forall i :: Describes(h, history, i)
    requires forall i :: 0 <= i < |history| && history[i].Failed? ==> history[i].at <= now
    ensures Clocked(history + [Failed(id, now)])
    ensures forall i :: Describes(OnFailure(h, id, now), history + [Failed(id, now)], i)
  {
    var e := Failed(id, now);
    var more := history + [e];
    forall i
      ensures Describes(OnFailure(h, id, now), more, i)
    {
      assert Describes(h, history, i);
      StreakPush(history, e, i);
      if i == id && (Streak(history, id) + 1) % THRESHOLD == 0 {
        assert more[..|history| + 1] == more;
        assert LastTrip(more, |history|, id);
        assert forall k :: 0 <= k < |history| ==> !LastTrip(more, k, id);
      } else {
        assert more[..|history| + 1] == more;
        StandingPush(history, e, i);
      }
    }
  }

  lemma FailureTrips(h: Health, history: seq<Event>, id: int, now: int)
    requires Clocked(history) && forall i :: Describes(h, history, i)
    ensures Asked(h.fails, id) + 1 >= THRESHOLD <==> Streak(history + [Failed(id, now)], id) % 5 == 0
  {
    assert Describes(h, history, id);
    StreakPush(history, Failed(id, now), id);
  }

  /** Only the last standing trip can still be cooling down when an earlier one is. */
  lemma CoolingMeans(h: Health, history: seq<Event>, id: int, now: int)
    requires Clocked(history) && Describes(h, history, id)
    ensures CoolingDown(history, id, now) <==> id in h.disabled && now - h.disabled[id] < COOLDOWN
  {
    if CoolingDown(history, id, now) {
      var k :| 0 <= k < |history| && Trips(history, k, id) && NoSuccessSince(history, k, id)
               && now - history[k].at < COOLDOWN;
      var l := Latest(history, k, id);
      assert LastTrip(history, l, id);
    }
    if id in h.disabled && now - h.disabled[id] < COOLDOWN {
      var k :| 0 <= k < |history| && LastTrip(history, k, id);
    }
  }

  lemma {:induction false} Latest(history: seq<Event>, k: nat, id: int) returns (l: nat)
    requires Trips(history, k, id) && NoSuccessSince(history, k, id)
    ensures k <= l < |history| && LastTrip(history, l, id)
    decreases |history| - k
  {
    if exists j :: k < j < |history| && Trips(history, j, id) {
      var j :| k < j < |history| && Trips(history, j, id);
      l := Latest(history, j, id);
    } else {
      l := k;
    }
  }
}
