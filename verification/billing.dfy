/**
  The billing page: the newest bills, the redeemed codes, for anyone but root
  only the viewer's own entries, the latest first.
 */
module Billing {
  import opened Accounts
  import opened Bytes
  import opened Sums
  import opened Ledger
  import Sequences

  const NEWEST: nat := 500

  /** An entry and its time as text; bills and codes write theirs in different formats. */
  datatype Row = Row(time: string, bill: Bill)

  function Newest(rows: seq<Row>, n: nat): seq<Row> {
    if rows == [] || n == 0 then [] else [rows[|rows| - 1]] + Newest(rows[..|rows| - 1], n - 1)
  }

  /** The bills too old to be read. */
  function Older<T>(bills: seq<T>): seq<T> {
    if |bills| <= NEWEST then [] else bills[..|bills| - NEWEST]
  }

  /** The billing log as it is stored, times and bills side by side. */
  function Log(times: seq<string>, bills: seq<Bill>): (rows: seq<Row>)
    requires |times| == |bills|
    ensures |rows| == |bills|
  {
    seq(|bills|, i requires 0 <= i < |bills| => Row(times[i], bills[i]))
  }

  function Winnings(times: seq<string>, codes: seq<Code>): seq<Row>
    requires |times| == |codes|
  {
    if codes == [] then []
    else
      var n := |codes| - 1;
      Winnings(times[..n], codes[..n])
      + if codes[n].status == 0 then [Row(times[n], Bill(codes[n].taker, "redeem", codes[n].quota))] else []
  }

  function Mine(rows: seq<Row>, viewer: string): seq<Row> {
    if rows == [] then []
    else Mine(rows[..|rows| - 1], viewer)
         + if rows[|rows| - 1].bill.user == viewer then [rows[|rows| - 1]] else []
  }

  /** What the page is made from: when each bill was written and each code redeemed. */
  datatype Sources = Sources(books: Books, billTimes: seq<string>, codeTimes: seq<string>)

  predicate Timed(s: Sources) {
    |s.billTimes| == |s.books.bills| && |s.codeTimes| == |s.books.codes|
  }

  function View(s: Sources, viewer: string): seq<Row>
    requires Timed(s)
  {
    var all := Newest(Log(s.billTimes, s.books.bills), NEWEST) + Winnings(s.codeTimes, s.books.codes);
    if IsRoot(s.books.users, viewer) then all else Mine(all, viewer)
  }

  // ----- Times as text.

  predicate LatestFirst(rows: seq<Row>) {
    forall i, j :: 0 <= i < j < |rows| ==> !After(rows[j].time, rows[i].time)
  }

  function OfTime(rows: seq<Row>, time: string): seq<Row> {
    if rows == [] then []
    else (if rows[0].time == time then [rows[0]] else []) + OfTime(rows[1..], time)
  }

  /** The latest first, entries of the same time in their old order. */
  ghost predicate SortedFrom(sorted: seq<Row>, rows: seq<Row>) {
    && LatestFirst(sorted) && multiset(sorted) == multiset(rows)
    && forall time :: OfTime(sorted, time) == OfTime(rows, time)
  }

  // ----- Reading the page.

  /** The newest bills first, cut off after reading them all. */
  method LoadBillings(rows: seq<Row>) returns (entries: seq<Row>)
    ensures entries == Newest(rows, NEWEST)
    ensures |entries| == if |rows| < 500 then |rows| else 500
    ensures forall j :: 0 <= j < |entries| ==> entries[j] == rows[|rows| - 1 - j]
  {
    entries := [];
    var i := |rows|;
    assert rows[..i] == rows;
    while i > 0
      invariant 0 <= i <= |rows|
      invariant entries + Newest(rows[..i], i) == Newest(rows, |rows|)
      invariant |entries| == |rows| - i
    {
      i := i - 1;
      assert rows[..i + 1][..i] == rows[..i];
      entries := entries + [rows[i]];
    }
    NewestCut(rows, NEWEST);
    if |entries| > NEWEST {
      entries := entries[..NEWEST];
    }
    NewestAt(rows, NEWEST);
  }

  /** `entries[:0]` shares the array it is read from, so the filter writes behind itself. */
  method KeepMine(entries: array<Row>, viewer: string) returns (n: nat)
    modifies entries
    ensures n <= entries.Length && entries[..n] == Mine(old(entries[..]), viewer)
  {
    n := 0;
    ghost var was := entries[..];
    for i := 0 to entries.Length
      invariant n <= i
      invariant entries[..n] == Mine(was[..i], viewer)
      invariant entries[i..] == was[i..]
    {
      assert was[..i + 1][..i] == was[..i];
      var e := entries[i];
      assert e == entries[i..][0] == was[i];
      if e.bill.user == viewer {
        entries[n] := e;
        n := n + 1;
        assert entries[..n] == entries[..n - 1] + [e];
      }
      assert entries[i + 1..] == was[i..][1..];
    }
    assert was[..|was|] == was;
  }

  method Collect(s: Sources, viewer: string) returns (entries: seq<Row>)
    requires Timed(s)
    ensures entries == View(s, viewer)
  {
    entries := LoadBillings(Log(s.billTimes, s.books.bills));
    ghost var newest := entries;
    var codes := s.books.codes;
    for i := 0 to |codes|
      invariant entries == newest + Winnings(s.codeTimes[..i], codes[..i])
    {
      assert codes[..i + 1][..i] == codes[..i] && s.codeTimes[..i + 1][..i] == s.codeTimes[..i];
      if codes[i].status == 0 {
        entries := entries + [Row(s.codeTimes[i], Bill(codes[i].taker, "redeem", codes[i].quota))];
      }
    }
    assert codes[..|codes|] == codes && s.codeTimes[..|codes|] == s.codeTimes;
    if IsRoot(s.books.users, viewer) {
      return entries;
    }
    var a := new Row[|entries|](i requires 0 <= i < |entries| => entries[i]);
    assert a[..] == entries;
    var n := KeepMine(a, viewer);
    return a[..n];
  }

  /** `sort.SliceStable`, the latest first. */
  method SortByTime(rows: seq<Row>) returns (sorted: seq<Row>)
    ensures SortedFrom(sorted, rows)
    ensures multiset(sorted) == multiset(rows)
    ensures forall i, j :: 0 <= i < j < |sorted| ==> !After(sorted[j].time, sorted[i].time)
  {
    sorted := [];
    var i := |rows|;
    assert rows[i..] == [];
    while i > 0
      invariant 0 <= i <= |rows|
      invariant SortedFrom(sorted, rows[i..])
    {
      i := i - 1;
      InsertSorted(rows, i, sorted);
      sorted := Insert(rows[i], sorted);
    }
    assert rows[0..] == rows;
  }

  method BillingPage(s: Sources, viewer: string) returns (page: seq<Row>)
    requires Timed(s)
    ensures SortedFrom(page, View(s, viewer))
  {
    var entries := Collect(s, viewer);
    page := SortByTime(entries);
  }

  // ----- Sorting.

  function Insert(r: Row, sorted: seq<Row>): seq<Row> {
    if sorted == [] || !After(sorted[0].time, r.time) then [r] + sorted else [sorted[0]] + Insert(r, sorted[1..])
  }

  lemma OfTimeCons(r: Row, rows: seq<Row>, time: string)
    ensures OfTime([r] + rows, time) == (if r.time == time then [r] else []) + OfTime(rows, time)
  {
    assert ([r] + rows)[1..] == rows;
  }

  lemma {:induction false} InsertStable(r: Row, sorted: seq<Row>, time: string)
    ensures OfTime(Insert(r, sorted), time) == (if r.time == time then [r] else []) + OfTime(sorted, time)
  {
    if sorted == [] || !After(sorted[0].time, r.time) {
      OfTimeCons(r, sorted, time);
    } else {
      AfterTotal(sorted[0].time, r.time);
      InsertStable(r, sorted[1..], time);
      OfTimeCons(sorted[0], Insert(r, sorted[1..]), time);
    }
  }

  lemma {:induction false} InsertMultiset(r: Row, sorted: seq<Row>)
    ensures multiset(Insert(r, sorted)) == multiset(sorted) + multiset{r}
  {
    if sorted == [] || !After(sorted[0].time, r.time) {
    } else {
      InsertMultiset(r, sorted[1..]);
      assert sorted == [sorted[0]] + sorted[1..];
    }
  }

  lemma {:induction false} InsertLatestFirst(r: Row, sorted: seq<Row>)
    requires LatestFirst(sorted)
    ensures LatestFirst(Insert(r, sorted))
  {
    if sorted == [] {
    } else if !After(sorted[0].time, r.time) {
      forall j | 0 <= j < |sorted|
        ensures !After(sorted[j].time, r.time)
      {
        NotAfterChain(sorted[j].time, sorted[0].time, r.time);
      }
    } else {
      var rest := Insert(r, sorted[1..]);
      InsertLatestFirst(r, sorted[1..]);
      InsertMultiset(r, sorted[1..]);
      AfterTotal(sorted[0].time, r.time);
      forall j | 0 <= j < |rest|
        ensures !After(rest[j].time, sorted[0].time)
      {
        assert rest[j] in multiset(rest);
        assert rest[j] == r || rest[j] in sorted[1..];
      }
    }
  }

  lemma InsertSorted(rows: seq<Row>, i: nat, sorted: seq<Row>)
    requires i < |rows| && SortedFrom(sorted, rows[i + 1..])
    ensures SortedFrom(Insert(rows[i], sorted), rows[i..])
  {
    assert rows[i..] == [rows[i]] + rows[i + 1..];
    InsertLatestFirst(rows[i], sorted);
    InsertMultiset(rows[i], sorted);
    forall time
      ensures OfTime(Insert(rows[i], sorted), time) == OfTime(rows[i..], time)
    {
      InsertStable(rows[i], sorted, time);
      OfTimeCons(rows[i], rows[i + 1..], time);
      assert OfTime(sorted, time) == OfTime(rows[i + 1..], time);
    }
  }

  // ----- What the page adds up to.

  function RowOf(name: string): Row -> int {
    (r: Row) => if r.bill.user == name then r.bill.amount else 0
  }

  lemma {:induction false} LogTotal(times: seq<string>, bills: seq<Bill>, name: string)
    requires |times| == |bills|
    ensures Total(Log(times, bills), RowOf(name)) == Total(bills, Of(name))
  {
    if bills == [] {
    } else {
      var n := |bills| - 1;
      LogTotal(times[..n], bills[..n], name);
      assert Log(times, bills)[..n] == Log(times[..n], bills[..n]);
    }
  }

  lemma {:induction false} NewestCut(rows: seq<Row>, n: nat)
    ensures |Newest(rows, |rows|)| == |rows|
    ensures Newest(rows, n) == if n < |rows| then Newest(rows, |rows|)[..n] else Newest(rows, |rows|)
  {
    if rows == [] {
    } else {
      NewestCut(rows[..|rows| - 1], if n == 0 then 0 else n - 1);
    }
  }

  lemma {:induction false} NewestAt(rows: seq<Row>, n: nat)
    ensures |Newest(rows, n)| == if |rows| < n then |rows| else n
    ensures forall j :: 0 <= j < |Newest(rows, n)| ==> Newest(rows, n)[j] == rows[|rows| - 1 - j]
  {
    if rows == [] || n == 0 {
    } else {
      NewestAt(rows[..|rows| - 1], n - 1);
    }
  }

  lemma {:induction false} NewestTotal(rows: seq<Row>, n: nat, f: Row -> int)
    ensures Total(Newest(rows, n), f) == Total(rows, f) - Total(rows[..if n < |rows| then |rows| - n else 0], f)
  {
    if rows == [] || n == 0 {
      assert rows[..|rows|] == rows;
    } else {
      var last := |rows| - 1;
      NewestTotal(rows[..last], n - 1, f);
      TotalPush([], rows[last], f);
      TotalJoin([] + [rows[last]], Newest(rows[..last], n - 1), f);
      assert [] + [rows[last]] == [rows[last]];
      var k := if n < |rows| then |rows| - n else 0;
      assert rows[..last][..k] == rows[..k];
    }
  }

  lemma {:induction false} WinningsTotal(times: seq<string>, codes: seq<Code>, name: string)
    requires |times| == |codes|
    ensures Total(Winnings(times, codes), RowOf(name)) == Total(codes, WonBy(name))
  {
    if codes == [] {
    } else {
      var n := |codes| - 1;
      WinningsTotal(times[..n], codes[..n], name);
      if codes[n].status == 0 {
        TotalPush(Winnings(times[..n], codes[..n]), Row(times[n], Bill(codes[n].taker, "redeem", codes[n].quota)),
                  RowOf(name));
      } else {
        assert Winnings(times, codes) == Winnings(times[..n], codes[..n]);
      }
    }
  }

  lemma {:induction false} MineTotal(rows: seq<Row>, viewer: string)
    ensures Total(Mine(rows, viewer), RowOf(viewer)) == Total(rows, RowOf(viewer))
    ensures forall i :: 0 <= i < |Mine(rows, viewer)| ==> Mine(rows, viewer)[i].bill.user == viewer
  {
    if rows == [] {
    } else {
      var init, last := rows[..|rows| - 1], rows[|rows| - 1];
      MineTotal(init, viewer);
      if last.bill.user == viewer {
        TotalPush(Mine(init, viewer), last, RowOf(viewer));
      } else {
        assert Mine(rows, viewer) == Mine(init, viewer);
      }
    }
  }

  lemma {:induction false} SameMultisetTotal(a: seq<Row>, b: seq<Row>, f: Row -> int)
    requires multiset(a) == multiset(b)
    ensures Total(a, f) == Total(b, f)
  {
    assert |multiset(a)| == |a| && |multiset(b)| == |b|;
    if a == [] {
      assert b == [];
    } else {
      var last := a[|a| - 1];
      assert last in multiset(a);
      var i :| 0 <= i < |b| && b[i] == last;
      WithoutLast(a, b, i);
      SameMultisetTotal(a[..|a| - 1], b[..i] + b[i + 1..], f);
      TotalSplit(b, i, f);
    }
  }

  lemma DropOne(b: seq<Row>, i: nat)
    requires i < |b|
    ensures multiset(b[..i] + b[i + 1..]) == multiset(b) - multiset{b[i]}
  {
    Around(b, i);
    assert multiset(b) == multiset(b[..i]) + multiset{b[i]} + multiset(b[i + 1..]);
  }

  lemma WithoutLast(a: seq<Row>, b: seq<Row>, i: nat)
    requires multiset(a) == multiset(b) && a != [] && i < |b| && b[i] == a[|a| - 1]
    ensures multiset(a[..|a| - 1]) == multiset(b[..i] + b[i + 1..])
  {
    var last := |a| - 1;
    DropOne(a, last);
    assert a[last + 1..] == [];
    assert a[..last] + [] == a[..last];
    DropOne(b, i);
  }

  /** The entries of one time are picked out in their order. */
  lemma {:induction false} OfTimeJoin(a: seq<Row>, b: seq<Row>, time: string)
    ensures OfTime(a + b, time) == OfTime(a, time) + OfTime(b, time)
  {
    if a == [] {
      assert a + b == b;
    } else {
      var first := if a[0].time == time then [a[0]] else [];
      assert (a + b)[1..] == a[1..] + b && (a + b)[0] == a[0];
      OfTimeJoin(a[1..], b, time);
      Sequences.Associates(first, OfTime(a[1..], time), OfTime(b, time));
    }
  }

  lemma OfTimeOne(r: Row, time: string)
    ensures OfTime([r], time) == if r.time == time then [r] else []
  {
    assert [r][1..] == [];
  }

  lemma {:induction false} MineHas(rows: seq<Row>, viewer: string, r: Row)
    ensures r in Mine(rows, viewer) <==> r in rows && r.bill.user == viewer
  {
    if rows == [] {
    } else {
      MineHas(rows[..|rows| - 1], viewer, r);
    }
  }

  lemma {:induction false} WinningsHave(times: seq<string>, codes: seq<Code>, r: Row)
    requires |times| == |codes|
    ensures r in Winnings(times, codes)
            <==> exists i :: && 0 <= i < |codes| && codes[i].status == 0
                             && r == Row(times[i], Bill(codes[i].taker, "redeem", codes[i].quota))
  {
    if codes == [] {
    } else {
      var n := |codes| - 1;
      WinningsHave(times[..n], codes[..n], r);
      assert forall i :: 0 <= i < n ==> codes[..n][i] == codes[i];
    }
  }

  /** Root reads every newer bill and every code redeemed, anyone else exactly the own ones among them. */
  lemma PageShows(s: Sources, page: seq<Row>, viewer: string, r: Row)
    requires Timed(s) && SortedFrom(page, View(s, viewer))
    ensures var users, bills, codes := s.books.users, s.books.bills, s.books.codes;
            var i := FirstUser(users, viewer);
            r in page
            <==> && (r.bill.user == viewer || (i < |users| && users[i].role == "root"))
                 && ((exists j :: |bills| - 500 <= j < |bills| && 0 <= j && r == Row(s.billTimes[j], bills[j]))
                     || (exists j :: && 0 <= j < |codes| && codes[j].status == 0
                                     && r == Row(s.codeTimes[j], Bill(codes[j].taker, "redeem", codes[j].quota))))
  {
    var rows := Log(s.billTimes, s.books.bills);
    NewestHas(s.billTimes, s.books.bills, r);
    WinningsHave(s.codeTimes, s.books.codes, r);
    MineHas(Newest(rows, NEWEST) + Winnings(s.codeTimes, s.books.codes), viewer, r);
    assert r in page <==> r in multiset(page);
    assert r in View(s, viewer) <==> r in multiset(View(s, viewer));
  }

  lemma NewestHas(times: seq<string>, bills: seq<Bill>, r: Row)
    requires |times| == |bills|
    ensures r in Newest(Log(times, bills), NEWEST)
            <==> exists j :: |bills| - 500 <= j < |bills| && 0 <= j && r == Row(times[j], bills[j])
  {
    var rows := Log(times, bills);
    var newest := Newest(rows, NEWEST);
    NewestAt(rows, NEWEST);
    if r in newest {
      var i :| 0 <= i < |newest| && newest[i] == r;
      assert r == Row(times[|rows| - 1 - i], bills[|rows| - 1 - i]);
    }
    if j :| |bills| - 500 <= j < |bills| && 0 <= j && r == Row(times[j], bills[j]) {
      assert newest[|rows| - 1 - j] == r;
    }
  }

  /** The page, in whatever order it is shown, adds up to what can still be read. */
  lemma PageTotal(s: Sources, page: seq<Row>, viewer: string, name: string)
    requires Timed(s) && SortedFrom(page, View(s, viewer))
    requires name == viewer || IsRoot(s.books.users, viewer)
    ensures Total(page, RowOf(name))
            == Billed(s.books, name) + Redeemed(s.books, name) - Total(Older(s.books.bills), Of(name))
  {
    var rows := Log(s.billTimes, s.books.bills);
    var newest, won := Newest(rows, NEWEST), Winnings(s.codeTimes, s.books.codes);
    OlderTotal(s, name);
    NewestTotal(rows, NEWEST, RowOf(name));
    LogTotal(s.billTimes, s.books.bills, name);
    WinningsTotal(s.codeTimes, s.books.codes, name);
    TotalJoin(newest, won, RowOf(name));
    MineTotal(newest + won, viewer);
    SameMultisetTotal(page, View(s, viewer), RowOf(name));
  }

  lemma OlderTotal(s: Sources, viewer: string)
    requires Timed(s)
    ensures var rows := Log(s.billTimes, s.books.bills);
            Total(rows[..if NEWEST < |rows| then |rows| - NEWEST else 0], RowOf(viewer))
            == Total(Older(s.books.bills), Of(viewer))
  {
    var rows := Log(s.billTimes, s.books.bills);
    var k := if NEWEST < |rows| then |rows| - NEWEST else 0;
    LogTotal(s.billTimes[..k], s.books.bills[..k], viewer);
    assert rows[..k] == Log(s.billTimes[..k], s.books.bills[..k]);
  }

  /**
    A viewer whose books reconcile can check it on the page itself exactly when
    the viewer's bills beyond the newest five hundred cancel out; in particular
    while there are no more than five hundred bills in all.
   */
  lemma PageReconciles(state: State, s: Sources, page: seq<Row>, viewer: string)
    requires Reconciled(state, viewer) && s.books == state.books
    requires Timed(s) && SortedFrom(page, View(s, viewer))
    ensures Balance(state.books.users, viewer) + Total(state.usage, Of(viewer))
            == Total(state.openings, Of(viewer)) + Total(page, RowOf(viewer))
            <==> Total(Older(state.books.bills), Of(viewer)) == 0
    ensures |state.books.bills| <= 500 ==> Total(Older(state.books.bills), Of(viewer)) == 0
  {
    PageTotal(s, page, viewer, viewer);
  }
}
