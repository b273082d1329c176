/**
  The gateway's four sliding-window limiters, in the form the code gives them.
  Each is proved to decide by `Window.Admits` over its full admission history.
 */
module Limiters {
  import opened Window
  import opened Sequences

  type Key = string

  /** A Go slice: the first `len` elements of a backing array. */
  datatype Slice<T> = Slice(arr: array<T>, len: nat)

  ghost predicate WellFormed<T>(s: Slice<T>) {
    s.len <= s.arr.Length
  }

  /** `append(s[:0:cap], ...)`: writes in place while the backing array has room. */
  method Append<T>(s: Slice<T>, x: T) returns (r: Slice<T>)
    requires WellFormed(s)
    modifies s.arr
    ensures WellFormed(r) && (r.arr == s.arr || fresh(r.arr))
    ensures r.arr[..r.len] == old(s.arr[..s.len]) + [x]
  {
    if s.len < s.arr.Length {
      s.arr[s.len] := x;
      r := Slice(s.arr, s.len + 1);
    } else {
      var grown := new T[2 * s.len + 1](_ => x);
      for i := 0 to s.len
        invariant forall j :: 0 <= j < i ==> grown[j] == s.arr[j]
        invariant grown[s.len] == x
        invariant s.arr[..] == old(s.arr[..])
      {
        grown[i] := s.arr[i];
      }
      r := Slice(grown, s.len + 1);
    }
  }

  lemma LiveStep(hits: seq<Hit>, i: nat, now: int)
    requires i < |hits|
    ensures Live(hits[..i + 1], now) ==
            Live(hits[..i], now) + if Fresh(hits[i].time, now) then [hits[i]] else []
  {
    assert hits[..i + 1] == hits[..i] + [hits[i]];
    LiveAppend(hits[..i], [hits[i]], now);
    assert [hits[i]][1..] == [];
  }

  lemma LiveTimesStep(times: seq<int>, i: nat, now: int)
    requires i < |times|
    ensures LiveTimes(times[..i + 1], now) ==
            LiveTimes(times[..i], now) + if Fresh(times[i], now) then [times[i]] else []
  {
    LiveTimesAppend(times[..i], [times[i]], now);
    assert times[..i + 1] == times[..i] + [times[i]];
    assert [times[i]][1..] == [];
  }

  lemma {:induction false} LiveTimesAppend(a: seq<int>, b: seq<int>, now: int)
    ensures LiveTimes(a + b, now) == LiveTimes(a, now) + LiveTimes(b, now)
  {
    if a == [] {
      assert a + b == b;
    } else {
      assert (a + b)[1..] == a[1..] + b;
      LiveTimesAppend(a[1..], b, now);
      Associates(if Fresh(a[0], now) then [a[0]] else [], LiveTimes(a[1..], now), LiveTimes(b, now));
    }
  }

  /** What one admission adds to an agreeing record keeps it agreeing. */
  lemma RecordAgrees(record: seq<Hit>, history: seq<Hit>, hit: Hit, now: int)
    requires record == Live(history, now)
    ensures Live(record + [hit], now) == Live(history + [hit], now)
    ensures Live(record, now) == Live(history, now)
  {
    LiveLater(history, now, now);
    LiveAppend(record, [hit], now);
    LiveAppend(history, [hit], now);
  }

  /** Counting the live times is weighing the live unit admissions. */
  lemma CountDecides(times: seq<int>, history: seq<Hit>, now: int, limit: int)
    requires Units(times) == Live(history, now)
    ensures |times| < limit <==> Admits(history, now, 1, limit)
  {
    UnitsWeight(times);
  }

  lemma RecordedTime(times: seq<int>, history: seq<Hit>, now: int)
    requires Units(times) == Live(history, now)
    ensures Live(Units(times + [now]), now) == Live(history + [Hit(now, 1)], now)
  {
    RecordAgrees(Units(times), history, Hit(now, 1), now);
    UnitsAppend(times, now);
  }

  /** What is left of an agreeing window decides, and may be stored with or without the new hit. */
  lemma TrimmedAgrees(buf: seq<int>, history: seq<Hit>, now: int, limit: int)
    requires Live(Units(buf), now) == Live(history, now)
    ensures var kept := LiveTimes(buf, now);
            && Units(kept) == Live(history, now)
            && (|kept| < limit <==> Admits(history, now, 1, limit))
            && Live(Units(kept), now) == Live(history, now)
            && Units(kept + [now]) == Live(history + [Hit(now, 1)], now)
            && Live(Units(kept + [now]), now) == Live(history + [Hit(now, 1)], now)
  {
    var kept := LiveTimes(buf, now);
    UnitsLive(buf, now);
    CountDecides(kept, history, now, limit);
    RecordAgrees(Units(kept), history, Hit(now, 1), now);
    RecordedTime(kept, history, now);
    UnitsAppend(kept, now);
    LiveAppend(history, [Hit(now, 1)], now);
    assert Live([Hit(now, 1)], now) == [Hit(now, 1)];
  }

  lemma UnitsAppend(times: seq<int>, now: int)
    ensures Units(times + [now]) == Units(times) + [Hit(now, 1)]
  {
  }

  // ----- Prefix-trimming windows: per-token and per-user requests a minute.

  /** The request windows, one per key; `tokReqWin` and `userReqWin` are two of these. */
  class RequestWindows {
    var wins: map<Key, seq<int>>
    ghost var histories: map<Key, seq<Hit>>

    ghost function History(key: Key): seq<Hit>
      reads this`histories
    {
      if key in histories then histories[key] else []
    }

    function Buffer(key: Key): seq<int>
      reads this`wins
    {
      if key in wins then wins[key] else []
    }

    /** From `now` on, what the window still holds counts like the full history. */
    ghost predicate Agrees(key: Key, now: int)
      reads this
    {
      && OrderlyTo(Buffer(key), now)
      && Live(Units(Buffer(key)), now) == Live(History(key), now)
    }

    ghost predicate ValidAt(now: int)
      reads this
    {
      forall k :: Agrees(k, now)
    }

    /** Time passing breaks nothing: the clock never runs backwards. */
    lemma ValidLater(earlier: int, now: int)
      requires earlier <= now && ValidAt(earlier)
      ensures ValidAt(now)
    {
      forall k
        ensures Agrees(k, now)
      {
        assert Agrees(k, earlier);
        AgreeLater(Units(Buffer(k)), History(k), earlier, now);
      }
    }

    constructor (ghost now: int)
      ensures ValidAt(now)
      ensures forall k :: History(k) == []
    {
      wins := map[];
      histories := map[];
    }

    /** Writes the window of `key` back, beside the history it stands for. */
    method Store(key: Key, buf: seq<int>, ghost history: seq<Hit>, now: int)
      requires ValidAt(now)
      requires OrderlyTo(buf, now)
      requires Live(Units(buf), now) == Live(history, now)
      modifies this
      ensures ValidAt(now)
      ensures Buffer(key) == buf && History(key) == history
      ensures forall k :: k != key ==> History(k) == old(History(k)) && Buffer(k) == old(Buffer(k))
    {
      wins := wins[key := buf];
      histories := histories[key := history];
      forall k
        ensures Agrees(k, now)
      {
        assert old(Agrees(k, now));
      }
    }

    method Allow(key: Key, limit: int, now: int) returns (ok: bool)
      requires ValidAt(now)
      modifies this
      ensures ValidAt(now)
      ensures limit <= 0 || key == "" ==> ok && wins == old(wins) && histories == old(histories)
      ensures limit > 0 && key != "" ==>
                && ok == Admits(old(History(key)), now, 1, limit)
                && History(key) == old(History(key)) + (if ok then [Hit(now, 1)] else [])
                && Units(Buffer(key)) == Live(History(key), now)
      ensures forall k :: k != key ==> History(k) == old(History(k)) && Buffer(k) == old(Buffer(k))
    {
      if limit <= 0 || key == "" {
        return true;
      }
      assert Agrees(key, now);
      var buf := if key in wins then wins[key] else [];
      ghost var history := History(key);
      TrimmedAgrees(buf, history, now, limit);
      var window := Trim(buf, now);
      SuffixOrderly(buf, window, now);
      if |window| >= limit {
        Store(key, window, history, now);
        return false;
      }
      Store(key, window + [now], history + [Hit(now, 1)], now);
      return true;
    }
  }

  predicate OrderlyTo(times: seq<int>, now: int) {
    Sorted(times) && forall i :: 0 <= i < |times| ==> times[i] <= now
  }

  lemma SuffixOrderly(times: seq<int>, kept: seq<int>, now: int)
    requires OrderlyTo(times, now) && |kept| <= |times| && kept == times[|times| - |kept|..]
    ensures OrderlyTo(kept, now) && OrderlyTo(kept + [now], now)
  {
  }

  /** Drops the expired prefix. */
  method Trim(buf: seq<int>, now: int) returns (kept: seq<int>)
    requires Sorted(buf)
    ensures kept == LiveTimes(buf, now)
    ensures |kept| <= |buf| && kept == buf[|buf| - |kept|..]
  {
    var i := 0;
    while i < |buf|
      invariant 0 <= i <= |buf|
      invariant forall j :: 0 <= j < i ==> !Fresh(buf[j], now)
    {
      if Fresh(buf[i], now) {
        break;
      }
      i := i + 1;
    }
    DropExpiredPrefix(buf, now, i);
    kept := buf[i..];
  }

  // ----- In-place compaction over an aliased slice: tokens a minute.

  class TokenWindows {
    var wins: map<Key, Slice<Hit>>
    ghost var histories: map<Key, seq<Hit>>

    ghost function Arrays(): set<array<Hit>>
      reads this`wins
    {
      set k | k in wins :: wins[k].arr
    }

    ghost function History(key: Key): seq<Hit>
      reads this`histories
    {
      if key in histories then histories[key] else []
    }

    ghost predicate Separate()
      reads this`wins
    {
      && (forall k :: k in wins ==> WellFormed(wins[k]))
      && (forall k, l :: k in wins && l in wins && k != l ==> wins[k].arr != wins[l].arr)
    }

    ghost function Buffer(key: Key): seq<Hit>
      requires Separate()
      reads this`wins, Arrays()
    {
      if key in wins then wins[key].arr[..wins[key].len] else []
    }

    ghost predicate Agrees(key: Key, now: int)
      requires Separate()
      reads this`wins, this`histories, Arrays()
    {
      Live(Buffer(key), now) == Live(History(key), now)
    }

    ghost predicate ValidAt(now: int)
      reads this`wins, this`histories, Arrays()
    {
      Separate() && forall k :: Agrees(k, now)
    }

    lemma ValidLater(earlier: int, now: int)
      requires earlier <= now && ValidAt(earlier)
      ensures ValidAt(now)
    {
      forall k
        ensures Agrees(k, now)
      {
        assert Agrees(k, earlier);
        AgreeLater(Buffer(k), History(k), earlier, now);
      }
    }

    constructor (ghost now: int)
      ensures ValidAt(now) && Arrays() == {}
      ensures forall k :: History(k) == []
    {
      wins := map[];
      histories := map[];
    }

    /** Loads the window of `key` and compacts it in its own backing array. */
    method Refill(key: Key, now: int) returns (kept: Slice<Hit>, sum: int)
      requires ValidAt(now)
      modifies this`wins, Arrays()
      ensures ValidAt(now) && fresh(Arrays() - old(Arrays()))
      ensures wins == old(wins)[key := kept] && (key in old(wins) ==> kept.arr == old(wins[key].arr))
      ensures Buffer(key) == Live(History(key), now) && sum == Weight(Buffer(key))
      ensures forall k :: k != key ==> Buffer(k) == old(Buffer(k))
    {
      assert Agrees(key, now);
      var buf: Slice<Hit>;
      if key in wins {
        buf := wins[key];
      } else {
        var empty := new Hit[0];
        buf := Slice(empty, 0);
      }
      LiveLater(History(key), now, now);
      var total;
      kept, total := CompactHits(buf, now);
      sum := total;
      wins := wins[key := kept];
      assert Separate();
      forall k | k != key
        ensures Buffer(k) == old(Buffer(k)) && Agrees(k, now)
      {
        assert old(Agrees(k, now));
      }
    }

    method Record(key: Key, kept: Slice<Hit>, hit: Hit)
      requires ValidAt(hit.time) && key in wins && wins[key] == kept
      requires Buffer(key) == Live(History(key), hit.time)
      modifies this, kept.arr
      ensures ValidAt(hit.time) && fresh(Arrays() - old(Arrays()))
      ensures Buffer(key) == old(Buffer(key)) + [hit] && History(key) == old(History(key)) + [hit]
      ensures forall k :: k != key ==> History(k) == old(History(k)) && Buffer(k) == old(Buffer(k))
    {
      ghost var history := History(key);
      RecordAgrees(Buffer(key), history, hit, hit.time);
      var grown := Append(kept, hit);
      wins := wins[key := grown];
      histories := histories[key := history + [hit]];
      assert Separate();
      forall k | k != key
        ensures Buffer(k) == old(Buffer(k)) && Agrees(k, hit.time)
      {
        assert old(Agrees(k, hit.time));
      }
    }

    method Allow(key: Key, tpm: int, cost: int, now: int) returns (ok: bool)
      requires ValidAt(now)
      modifies this, Arrays()
      ensures ValidAt(now) && fresh(Arrays() - old(Arrays()))
      ensures tpm <= 0 || cost <= 0 || key == "" ==> ok && wins == old(wins) && histories == old(histories)
      ensures tpm > 0 && cost > 0 && key != "" ==>
                && ok == Admits(old(History(key)), now, cost, tpm)
                && History(key) == old(History(key)) + (if ok then [Hit(now, cost)] else [])
                && Buffer(key) == Live(History(key), now)
      ensures forall k :: k != key ==> History(k) == old(History(k)) && Buffer(k) == old(Buffer(k))
    {
      if tpm <= 0 || cost <= 0 || key == "" {
        return true;
      }
      var kept, sum := Refill(key, now);
      if sum + cost > tpm {
        return false;
      }
      LiveAppend(History(key), [Hit(now, cost)], now);
      Record(key, kept, Hit(now, cost));
      return true;
    }
  }

  /** `kept := buf[:0]`, then every live entry appended: `kept` aliases `buf`. */
  method CompactHits(buf: Slice<Hit>, now: int) returns (kept: Slice<Hit>, sum: int)
    requires WellFormed(buf)
    modifies buf.arr
    ensures kept.arr == buf.arr && WellFormed(kept)
    ensures kept.arr[..kept.len] == Live(old(buf.arr[..buf.len]), now)
    ensures sum == Weight(kept.arr[..kept.len])
  {
    ghost var whole := buf.arr[..buf.len];
    kept, sum := Slice(buf.arr, 0), 0;
    assert whole[..0] == [];
    for i := 0 to buf.len
      invariant kept.arr == buf.arr && kept.len <= i
      invariant buf.arr[..kept.len] == Live(whole[..i], now)
      invariant buf.arr[i..buf.len] == whole[i..]
      invariant sum == Weight(Live(whole[..i], now))
    {
      var e := buf.arr[i];
      assert e == buf.arr[i..buf.len][0] == whole[i];
      assert buf.arr[i + 1..buf.len] == buf.arr[i..buf.len][1..] == whole[i..][1..] == whole[i + 1..];
      LiveStep(whole, i, now);
      if Fresh(e.time, now) {
        WeightPush(Live(whole[..i], now), e);
        buf.arr[kept.len] := e;
        assert buf.arr[..kept.len + 1] == Live(whole[..i], now) + [e];
        kept := Slice(buf.arr, kept.len + 1);
        sum := sum + e.weight;
      }
    }
    assert whole[..buf.len] == whole;
  }

  lemma WeightPush(hits: seq<Hit>, e: Hit)
    ensures Weight(hits + [e]) == Weight(hits) + e.weight
  {
    WeightAppend(hits, [e]);
    assert [e][1..] == [];
  }

  method CompactTimes(buf: Slice<int>, now: int) returns (kept: Slice<int>)
    requires WellFormed(buf)
    modifies buf.arr
    ensures kept.arr == buf.arr && WellFormed(kept)
    ensures kept.arr[..kept.len] == LiveTimes(old(buf.arr[..buf.len]), now)
  {
    ghost var whole := buf.arr[..buf.len];
    var window := now - WINDOW;
    kept := Slice(buf.arr, 0);
    assert whole[..0] == [];
    for i := 0 to buf.len
      invariant kept.arr == buf.arr && kept.len <= i
      invariant buf.arr[..kept.len] == LiveTimes(whole[..i], now)
      invariant buf.arr[i..buf.len] == whole[i..]
    {
      var t := buf.arr[i];
      assert t == buf.arr[i..buf.len][0] == whole[i];
      assert whole[i..][1..] == whole[i + 1..];
      LiveTimesStep(whole, i, now);
      if t > window {
        assert buf.arr[i + 1..buf.len] == buf.arr[i..buf.len][1..] == whole[i + 1..];
        buf.arr[kept.len] := t;
        assert buf.arr[..kept.len + 1] == LiveTimes(whole[..i], now) + [t];
        kept := Slice(buf.arr, kept.len + 1);
      }
      assert buf.arr[i + 1..buf.len] == whole[i + 1..];
    }
    assert whole[..buf.len] == whole;
  }

  // ----- In-place compaction plus a background janitor: requests a minute per address.

  class AddressWindows {
    var hits: map<Key, Slice<int>>
    ghost var histories: map<Key, seq<Hit>>

    ghost function Arrays(): set<array<int>>
      reads this`hits
    {
      set k | k in hits :: hits[k].arr
    }

    ghost function History(key: Key): seq<Hit>
      reads this`histories
    {
      if key in histories then histories[key] else []
    }

    ghost predicate Separate()
      reads this`hits
    {
      && (forall k :: k in hits ==> WellFormed(hits[k]))
      && (forall k, l :: k in hits && l in hits && k != l ==> hits[k].arr != hits[l].arr)
    }

    ghost function Buffer(key: Key): seq<int>
      requires Separate()
      reads this`hits, Arrays()
    {
      if key in hits then hits[key].arr[..hits[key].len] else []
    }

    ghost predicate Agrees(key: Key, now: int)
      requires Separate()
      reads this`hits, this`histories, Arrays()
    {
      Live(Units(Buffer(key)), now) == Live(History(key), now)
    }

    ghost predicate ValidAt(now: int)
      reads this`hits, this`histories, Arrays()
    {
      Separate() && forall k :: Agrees(k, now)
    }

    lemma ValidLater(earlier: int, now: int)
      requires earlier <= now && ValidAt(earlier)
      ensures ValidAt(now)
    {
      forall k
        ensures Agrees(k, now)
      {
        assert Agrees(k, earlier);
        AgreeLater(Units(Buffer(k)), History(k), earlier, now);
      }
    }

    constructor (ghost now: int)
      ensures ValidAt(now) && Arrays() == {}
      ensures forall k :: History(k) == []
    {
      hits := map[];
      histories := map[];
    }

    /** Loads the window of `key` and compacts it in its own backing array. */
    method Refill(key: Key, now: int) returns (kept: Slice<int>)
      requires ValidAt(now)
      modifies this`hits, Arrays()
      ensures ValidAt(now) && fresh(Arrays() - old(Arrays()))
      ensures hits == old(hits)[key := kept] && (key in old(hits) ==> kept.arr == old(hits[key].arr))
      ensures Units(Buffer(key)) == Live(History(key), now)
      ensures forall k :: k != key ==> Buffer(k) == old(Buffer(k))
    {
      assert Agrees(key, now);
      var buf: Slice<int>;
      if key in hits {
        buf := hits[key];
      } else {
        var empty := new int[0];
        buf := Slice(empty, 0);
      }
      UnitsLive(buf.arr[..buf.len], now);
      LiveLater(History(key), now, now);
      kept := CompactTimes(buf, now);
      hits := hits[key := kept];
      assert Separate();
      forall k | k != key
        ensures Buffer(k) == old(Buffer(k)) && Agrees(k, now)
      {
        assert old(Agrees(k, now));
      }
    }

    method Record(key: Key, kept: Slice<int>, now: int)
      requires ValidAt(now) && key in hits && hits[key] == kept
      requires Units(Buffer(key)) == Live(History(key), now)
      modifies this, kept.arr
      ensures ValidAt(now) && fresh(Arrays() - old(Arrays()))
      ensures Buffer(key) == old(Buffer(key)) + [now] && History(key) == old(History(key)) + [Hit(now, 1)]
      ensures forall k :: k != key ==> History(k) == old(History(k)) && Buffer(k) == old(Buffer(k))
    {
      ghost var history := History(key);
      ghost var buffer := Buffer(key);
      RecordedTime(buffer, history, now);
      var grown := Append(kept, now);
      hits := hits[key := grown];
      histories := histories[key := history + [Hit(now, 1)]];
      assert Separate();
      assert Buffer(key) == buffer + [now];
      forall k | k != key
        ensures Buffer(k) == old(Buffer(k)) && Agrees(k, now)
      {
        assert old(Agrees(k, now));
      }
    }

    method Allow(ip: Key, limit: int, now: int) returns (ok: bool)
      requires ValidAt(now)
      modifies this, Arrays()
      ensures ValidAt(now) && fresh(Arrays() - old(Arrays()))
      ensures ok == Admits(old(History(ip)), now, 1, limit)
      ensures History(ip) == old(History(ip)) + if ok then [Hit(now, 1)] else []
      ensures Units(Buffer(ip)) == Live(History(ip), now)
      ensures forall k :: k != ip ==> History(k) == old(History(k)) && Buffer(k) == old(Buffer(k))
    {
      var kept := Refill(ip, now);
      CountDecides(Buffer(ip), History(ip), now, limit);
      if kept.len >= limit {
        return false;
      }
      LiveAppend(History(ip), [Hit(now, 1)], now);
      UnitsAppend(Buffer(ip), now);
      Record(ip, kept, now);
      return true;
    }

    /**
      One tick of the janitor: every window is compacted in place, in any
      order, and forgotten when nothing live is left.  No history changes, so
      no later decision of `Allow` does.
     */
    method Sweep(now: int)
      requires ValidAt(now)
      modifies this`hits, Arrays()
      ensures ValidAt(now) && Arrays() <= old(Arrays())
      ensures histories == old(histories)
      ensures forall k :: Units(Buffer(k)) == Live(History(k), now)
      ensures forall k :: k in hits <==> Live(History(k), now) != []
    {
      forall k | k !in hits
        ensures Swept(k, now)
      {
        assert Agrees(k, now) && Buffer(k) == [];
      }
      var todo := hits.Keys;
      while todo != {}
        invariant todo <= hits.Keys
        invariant ValidAt(now) && Arrays() <= old(Arrays())
        invariant forall k :: k !in todo ==> Swept(k, now)
        decreases |todo|
      {
        var k :| k in todo;
        todo := todo - {k};
        SweepOne(k, now);
      }
      forall k
        ensures Units(Buffer(k)) == Live(History(k), now)
        ensures k in hits <==> Live(History(k), now) != []
      {
        assert Swept(k, now) && |Units(Buffer(k))| == |Buffer(k)|;
      }
    }

    ghost predicate Swept(key: Key, now: int)
      requires Separate()
      reads this`hits, this`histories, Arrays()
    {
      Units(Buffer(key)) == Live(History(key), now) && (key in hits ==> hits[key].len > 0)
    }

    method SweepOne(k: Key, now: int)
      requires ValidAt(now) && k in hits
      modifies this`hits, Arrays()
      ensures ValidAt(now) && Arrays() <= old(Arrays()) && old(hits.Keys) - {k} <= hits.Keys <= old(hits.Keys)
      ensures Swept(k, now)
      ensures forall l :: l != k && old(Swept(l, now)) ==> Swept(l, now)
    {
      var kept := Refill(k, now);
      label filled:
      if kept.len == 0 {
        hits := hits - {k};
        assert Separate();
        forall l
          ensures Agrees(l, now) && Buffer(l) == old@filled(Buffer(l))
        {
          assert old@filled(Agrees(l, now));
        }
      }
    }
  }
}
