/**
  The writers a relayed stream passes through: the model name is rewritten in
  every write, the tail is kept for usage parsing, and the bytes the client
  takes are counted.
 */
module RelayWriters {
  import opened Bytes
  import opened Sequences

  const STREAM_TAIL_BYTES: int := 64 * 1024

  /** The last `max` bytes, or all of them. */
  function Last(s: bytes, max: nat): bytes {
    if |s| <= max then s else s[|s| - max..]
  }

  class CountWriter {
    var status: int
    var wroteHeader: bool
    var total: int
    var client: bytes

    constructor ()
      ensures status == 200 && !wroteHeader && total == 0 && client == ""
    {
      status, wroteHeader, total, client := 200, false, 0, "";
    }

    method WriteHeader(code: int)
      modifies this`status, this`wroteHeader
      ensures wroteHeader && status == if old(wroteHeader) then old(status) else code
    {
      if !wroteHeader {
        status := code;
        wroteHeader := true;
      }
    }

    /** The connection may take only the first `taken` bytes; those are what is counted. */
    method Write(b: bytes, taken: nat) returns (n: int)
      requires taken <= |b|
      modifies this
      ensures n == taken && client == old(client) + b[..taken] && total == old(total) + taken
      ensures wroteHeader && status == if old(wroteHeader) then old(status) else 200
    {
      if !wroteHeader {
        status := 200;
        wroteHeader := true;
      }
      client := client + b[..taken];
      n := taken;
      total := total + n;
    }
  }

  lemma LastOfLast(a: bytes, b: bytes, max: nat)
    ensures Last(Last(a, max) + b, max) == Last(a + b, max)
    ensures |b| >= max ==> Last(a + b, max) == b[|b| - max..]
  {
    if |b| >= max {
      assert (a + b)[|a + b| - max..] == b[|b| - max..];
    }
  }

  class TailWriter {
    const inner: CountWriter
    const max: int
    var tail: bytes
    ghost var seen: bytes

    ghost predicate Valid()
      reads this
    {
      tail == if max > 0 then Last(seen, max) else ""
    }

    constructor (inner: CountWriter, max: int)
      ensures this.inner == inner && this.max == max && Valid() && seen == ""
    {
      this.inner, this.max := inner, max;
      tail, seen := "", "";
    }

    method Write(b: bytes, taken: nat) returns (n: int)
      requires Valid() && taken <= |b|
      modifies this, inner
      ensures Valid() && seen == old(seen) + b
      ensures n == taken && inner.client == old(inner.client) + b[..taken] && inner.total == old(inner.total) + taken
    {
      if max > 0 {
        LastOfLast(seen, b, max);
        if |b| >= max {
          tail := b[|b| - max..];
        } else {
          tail := tail + b;
          if |tail| > max {
            tail := tail[|tail| - max..];
          }
        }
      }
      seen := seen + b;
      n := inner.Write(b, taken);
    }
  }

  /** What one write becomes; an empty pattern means no rewriting. */
  function Rewritten(b: bytes, from: bytes, to: bytes): bytes {
    if from == "" then b else ReplaceAll(b, from, to)
  }

  class RewriteWriter {
    const inner: TailWriter
    const from: bytes
    const to: bytes

    constructor (inner: TailWriter, from: bytes, to: bytes)
      ensures this.inner == inner && this.from == from && this.to == to
    {
      this.inner, this.from, this.to := inner, from, to;
    }

    /** The count returned is of the rewritten bytes. */
    method Write(b: bytes, taken: nat) returns (n: int)
      requires inner.Valid() && taken <= |Rewritten(b, from, to)|
      modifies inner, inner.inner
      ensures n == taken
      ensures inner.Valid() && inner.seen == old(inner.seen) + Rewritten(b, from, to)
      ensures inner.inner.client == old(inner.inner.client) + Rewritten(b, from, to)[..taken]
      ensures inner.inner.total == old(inner.inner.total) + taken
    {
      var out := b;
      if |from| > 0 {
        out := ReplaceAll(b, from, to);
      }
      n := inner.Write(out, taken);
    }
  }

  const KEY: bytes := "\"model\":\""

  function Pattern(model: bytes): bytes {
    KEY + model + "\""
  }

  /** What the client should get for the upstream stream `s`. */
  function Public(s: bytes, upstream: bytes, public: bytes): bytes {
    if upstream == "" || upstream == public then s
    else ReplaceAll(s, Pattern(upstream), Pattern(public))
  }

  /** The pattern is the name as JSON writes it, in quotes behind its key. */
  lemma PublicMeans(s: bytes, upstream: bytes, public: bytes)
    ensures upstream == "" || upstream == public ==> Public(s, upstream, public) == s
    ensures upstream != "" && upstream != public ==>
              Public(s, upstream, public)
              == ReplaceAll(s, "\"model\":\"" + upstream + "\"", "\"model\":\"" + public + "\"")
  {
  }

  function PublicAll(writes: seq<bytes>, upstream: bytes, public: bytes): bytes {
    if writes == [] then ""
    else PublicAll(writes[..|writes| - 1], upstream, public) + Public(writes[|writes| - 1], upstream, public)
  }

  /** Each write goes out as far as the connection takes it. */
  predicate Fit(writes: seq<bytes>, taken: seq<nat>, upstream: bytes, public: bytes) {
    |taken| == |writes| && forall i :: 0 <= i < |writes| ==> taken[i] <= |Public(writes[i], upstream, public)|
  }

  function Accepted(writes: seq<bytes>, taken: seq<nat>, upstream: bytes, public: bytes): bytes
    requires Fit(writes, taken, upstream, public)
  {
    if writes == [] then ""
    else
      var last := |writes| - 1;
      Accepted(writes[..last], taken[..last], upstream, public) + Public(writes[last], upstream, public)[..taken[last]]
  }

  lemma {:induction false} AllAccepted(writes: seq<bytes>, taken: seq<nat>, upstream: bytes, public: bytes)
    requires Fit(writes, taken, upstream, public)
    requires TookAll(writes, taken, upstream, public)
    ensures Accepted(writes, taken, upstream, public) == PublicAll(writes, upstream, public)
  {
    if writes == [] {
    } else {
      var last := |writes| - 1;
      AllAccepted(writes[..last], taken[..last], upstream, public);
      assert Public(writes[last], upstream, public)[..taken[last]] == Public(writes[last], upstream, public);
    }
  }

  /** The first `i` writes have gone through. */
  predicate Written(writes: seq<bytes>, taken: seq<nat>, upstream: bytes, public: bytes, i: nat,
                    seen: bytes, client: bytes, total: int)
    requires Fit(writes, taken, upstream, public) && i <= |writes|
  {
    && seen == PublicAll(writes[..i], upstream, public)
    && client == Accepted(writes[..i], taken[..i], upstream, public)
    && total == |client|
  }

  lemma OneMoreWrite(writes: seq<bytes>, taken: seq<nat>, upstream: bytes, public: bytes, i: nat,
                     seen: bytes, client: bytes, total: int)
    requires Fit(writes, taken, upstream, public) && i < |writes|
    requires Written(writes, taken, upstream, public, i, seen, client, total)
    ensures var out := Public(writes[i], upstream, public);
            Written(writes, taken, upstream, public, i + 1, seen + out, client + out[..taken[i]], total + taken[i])
  {
    assert writes[..i + 1][..i] == writes[..i] && taken[..i + 1][..i] == taken[..i];
  }

  predicate TookAll(writes: seq<bytes>, taken: seq<nat>, upstream: bytes, public: bytes)
    requires Fit(writes, taken, upstream, public)
  {
    forall i :: 0 <= i < |writes| ==> taken[i] == |Public(writes[i], upstream, public)|
  }

  /** Nothing to rewrite: the tail buffer is written to directly. */
  method SendPlain(tw: TailWriter, writes: seq<bytes>, taken: seq<nat>, upstream: bytes, public: bytes)
    requires Fit(writes, taken, upstream, public) && (upstream == "" || upstream == public)
    requires tw.Valid() && Written(writes, taken, upstream, public, 0, tw.seen, tw.inner.client, tw.inner.total)
    modifies tw, tw.inner
    ensures tw.Valid() && Written(writes, taken, upstream, public, |writes|, tw.seen, tw.inner.client, tw.inner.total)
  {
    for i := 0 to |writes|
      invariant tw.Valid() && Written(writes, taken, upstream, public, i, tw.seen, tw.inner.client, tw.inner.total)
    {
      OneMoreWrite(writes, taken, upstream, public, i, tw.seen, tw.inner.client, tw.inner.total);
      var _ := tw.Write(writes[i], taken[i]);
    }
  }

  method SendRewritten(rw: RewriteWriter, writes: seq<bytes>, taken: seq<nat>, upstream: bytes, public: bytes)
    requires Fit(writes, taken, upstream, public) && upstream != "" && upstream != public
    requires rw.from == Pattern(upstream) && rw.to == Pattern(public) && rw.inner.Valid()
    requires Written(writes, taken, upstream, public, 0, rw.inner.seen, rw.inner.inner.client, rw.inner.inner.total)
    modifies rw.inner, rw.inner.inner
    ensures rw.inner.Valid()
    ensures Written(writes, taken, upstream, public, |writes|, rw.inner.seen, rw.inner.inner.client,
                    rw.inner.inner.total)
  {
    ghost var tw := rw.inner;
    for i := 0 to |writes|
      invariant tw.Valid() && Written(writes, taken, upstream, public, i, tw.seen, tw.inner.client, tw.inner.total)
    {
      OneMoreWrite(writes, taken, upstream, public, i, tw.seen, tw.inner.client, tw.inner.total);
      var _ := rw.Write(writes[i], taken[i]);
    }
  }

  /**
    The whole stack over a stream that arrives as `writes`: the tail is cut
    from all that was written, the counter is of what the client took, and the
    two agree when it took everything.
   */
  method Stream(writes: seq<bytes>, taken: seq<nat>, upstream: bytes, public: bytes)
    returns (client: bytes, tail: bytes, total: int)
    requires Fit(writes, taken, upstream, public)
    ensures client == Accepted(writes, taken, upstream, public)
    ensures var all := PublicAll(writes, upstream, public);
            tail == if |all| <= 65536 then all else all[|all| - 65536..]
    ensures total == |client|
    ensures TookAll(writes, taken, upstream, public) ==> client == PublicAll(writes, upstream, public)
  {
    var cw := new CountWriter();
    var tw := new TailWriter(cw, STREAM_TAIL_BYTES);
    assert writes[..0] == [] && taken[..0] == [];
    if upstream == "" || upstream == public {
      SendPlain(tw, writes, taken, upstream, public);
    } else {
      var rw := new RewriteWriter(tw, Pattern(upstream), Pattern(public));
      SendRewritten(rw, writes, taken, upstream, public);
    }
    assert writes[..|writes|] == writes && taken[..|taken|] == taken;
    client, tail, total := cw.client, tw.tail, cw.total;
    if TookAll(writes, taken, upstream, public) {
      AllAccepted(writes, taken, upstream, public);
    }
  }

  // ----- What the rewriting writer reports.

  predicate Occurs(s: bytes, from: bytes) {
    exists m :: 0 <= m <= |s| && from <= s[m..]
  }

  /** How many occurrences the leftmost scan replaces. */
  function Replacements(s: bytes, from: bytes): nat
    requires from != ""
    decreases |s|
  {
    if s == "" then 0
    else if from <= s then 1 + Replacements(s[|from|..], from)
    else Replacements(s[1..], from)
  }

  lemma {:induction false} ReplacedSize(s: bytes, from: bytes, to: bytes)
    requires from != ""
    ensures |ReplaceAll(s, from, to)| == |s| + Replacements(s, from) * (|to| - |from|)
    decreases |s|
  {
    if s == "" {
    } else if from <= s {
      ReplacedSize(s[|from|..], from, to);
      OneMoreTime(Replacements(s[|from|..], from), |to| - |from|);
    } else {
      ReplacedSize(s[1..], from, to);
    }
  }

  lemma OneMoreTime(k: nat, d: int)
    ensures (1 + k) * d == d + k * d
  {
  }

  lemma {:induction false} NoneReplaced(s: bytes, from: bytes)
    requires from != ""
    ensures Replacements(s, from) == 0 <==> !Occurs(s, from)
    decreases |s|
  {
    if s == "" {
    } else if from <= s {
      assert s[0..] == s;
    } else {
      NoneReplaced(s[1..], from);
      if Occurs(s, from) {
        var m :| 0 <= m <= |s| && from <= s[m..];
        assert s[0..] == s;
        assert s[1..][m - 1..] == s[m..];
      }
      if Occurs(s[1..], from) {
        var m :| 0 <= m <= |s[1..]| && from <= s[1..][m..];
        assert s[1..][m..] == s[m + 1..];
      }
    }
  }

  /**
    The count a write returns is of the rewritten bytes.  It is that of the
    bytes it was given exactly when the names are equally long or the upstream
    name does not occur.
   */
  lemma CountsTheWrite(b: bytes, upstream: bytes, public: bytes)
    requires upstream != "" && upstream != public
    ensures |Public(b, upstream, public)| == |b| <==> |upstream| == |public| || !Occurs(b, Pattern(upstream))
  {
    ReplacedSize(b, Pattern(upstream), Pattern(public));
    NoneReplaced(b, Pattern(upstream));
    NoChange(Replacements(b, Pattern(upstream)), |Pattern(public)| - |Pattern(upstream)|);
  }

  lemma NoChange(k: nat, d: int)
    ensures k * d == 0 <==> k == 0 || d == 0
  {
  }

  // ----- When rewriting piecewise is rewriting the whole.

  /** `ReplaceAll` replaces the occurrence at `m`: the leftmost scan stops there. */
  predicate Taken(s: bytes, from: bytes, m: nat)
    requires from != ""
    decreases |s|
  {
    s != ""
    && if from <= s then m == 0 || (m >= |from| && Taken(s[|from|..], from, m - |from|))
       else m > 0 && Taken(s[1..], from, m - 1)
  }

  /** How many bytes the first `i` writes hold. */
  function Cut(writes: seq<bytes>, i: nat): nat
    requires i <= |writes|
  {
    |Concat(writes[..i])|
  }

  /** A replaced occurrence begins before a cut between two writes and ends after it. */
  predicate Straddles(writes: seq<bytes>, from: bytes, m: nat, i: nat)
    requires from != ""
  {
    i <= |writes| && Taken(Concat(writes), from, m) && m < Cut(writes, i) < m + |from|
  }

  ghost predicate Straddled(writes: seq<bytes>, from: bytes)
    requires from != ""
  {
    exists m, i :: Straddles(writes, from, m, i)
  }

  // The scan of `a + Concat(rest)`, `a` being what is left of the current write.

  function Pieces(a: bytes, rest: seq<bytes>, from: bytes, to: bytes): bytes
    requires from != ""
    decreases |rest|
  {
    ReplaceAll(a, from, to) + if rest == [] then "" else Pieces(rest[0], rest[1..], from, to)
  }

  predicate Crossed(a: bytes, rest: seq<bytes>, from: bytes)
    requires from != ""
    decreases |rest|, |a|
  {
    if a == "" then rest != [] && Crossed(rest[0], rest[1..], from)
    else if from <= a + Concat(rest) then |a| < |from| || Crossed(a[|from|..], rest, from)
    else Crossed(a[1..], rest, from)
  }

  /** Dropping `k` bytes off both. */
  lemma DropBoth(a: bytes, b: bytes, k: nat)
    requires k <= |a|
    ensures (a + b)[k..] == a[k..] + b
  {
  }

  lemma PiecesTake(a: bytes, rest: seq<bytes>, from: bytes, to: bytes)
    requires from != "" && from <= a
    ensures Pieces(a, rest, from, to) == to + Pieces(a[|from|..], rest, from, to)
    ensures ReplaceAll(a + Concat(rest), from, to) == to + ReplaceAll(a[|from|..] + Concat(rest), from, to)
  {
    var later := if rest == [] then "" else Pieces(rest[0], rest[1..], from, to);
    Associates(to, ReplaceAll(a[|from|..], from, to), later);
    DropBoth(a, Concat(rest), |from|);
    assert from <= a + Concat(rest);
  }

  lemma PiecesSkip(a: bytes, rest: seq<bytes>, from: bytes, to: bytes)
    requires from != "" && a != "" && !(from <= a + Concat(rest))
    ensures Pieces(a, rest, from, to) == [a[0]] + Pieces(a[1..], rest, from, to)
    ensures ReplaceAll(a + Concat(rest), from, to) == [a[0]] + ReplaceAll(a[1..] + Concat(rest), from, to)
  {
    var later := if rest == [] then "" else Pieces(rest[0], rest[1..], from, to);
    assert from <= a ==> from <= a + Concat(rest);
    Associates([a[0]], ReplaceAll(a[1..], from, to), later);
    DropBoth(a, Concat(rest), 1);
  }

  lemma PiecesNext(rest: seq<bytes>, from: bytes, to: bytes)
    requires from != "" && rest != []
    ensures Pieces("", rest, from, to) == Pieces(rest[0], rest[1..], from, to)
    ensures "" + Concat(rest) == rest[0] + Concat(rest[1..])
  {
    EmptyFirst(Pieces(rest[0], rest[1..], from, to));
    EmptyFirst(Concat(rest));
  }

  /** No replaced occurrence across a cut: the pieces are the whole, for any pattern. */
  lemma {:induction false} UncrossedIsWhole(a: bytes, rest: seq<bytes>, from: bytes, to: bytes)
    requires from != "" && !Crossed(a, rest, from)
    ensures Pieces(a, rest, from, to) == ReplaceAll(a + Concat(rest), from, to)
    decreases |rest|, |a|
  {
    if a == "" {
      if rest == [] {
        assert a + Concat(rest) == "";
      } else {
        PiecesNext(rest, from, to);
        UncrossedIsWhole(rest[0], rest[1..], from, to);
      }
    } else if from <= a + Concat(rest) {
      assert from <= a;
      PiecesTake(a, rest, from, to);
      UncrossedIsWhole(a[|from|..], rest, from, to);
    } else {
      PiecesSkip(a, rest, from, to);
      UncrossedIsWhole(a[1..], rest, from, to);
    }
  }

  // ----- The scan and the cuts.

  predicate StraddlesFrom(a: bytes, rest: seq<bytes>, from: bytes, m: nat, i: nat)
    requires from != ""
  {
    i <= |rest| && Taken(a + Concat(rest), from, m) && m < |a| + Cut(rest, i) < m + |from|
  }

  lemma CutNext(rest: seq<bytes>, i: nat)
    requires 0 < i <= |rest|
    ensures Cut(rest, i) == |rest[0]| + Cut(rest[1..], i - 1)
  {
    assert rest[..i][1..] == rest[1..][..i - 1];
  }

  lemma {:induction false} CrossedStraddles(a: bytes, rest: seq<bytes>, from: bytes) returns (m: nat, i: nat)
    requires from != "" && Crossed(a, rest, from)
    ensures StraddlesFrom(a, rest, from, m, i)
    decreases |rest|, |a|
  {
    if a == "" {
      m, i := CrossedStraddles(rest[0], rest[1..], from);
      i := i + 1;
      CutNext(rest, i);
      EmptyFirst(Concat(rest));
    } else if from <= a + Concat(rest) {
      if |a| < |from| {
        m, i := 0, 0;
        assert rest[..0] == [];
      } else {
        DropBoth(a, Concat(rest), |from|);
        m, i := CrossedStraddles(a[|from|..], rest, from);
        m := m + |from|;
      }
    } else {
      DropBoth(a, Concat(rest), 1);
      m, i := CrossedStraddles(a[1..], rest, from);
      m := m + 1;
    }
  }

  lemma {:induction false} StraddlesCrossed(a: bytes, rest: seq<bytes>, from: bytes, m: nat, i: nat)
    requires from != "" && StraddlesFrom(a, rest, from, m, i)
    ensures Crossed(a, rest, from)
    decreases |rest|, |a|
  {
    if a == "" {
      EmptyFirst(Concat(rest));
      assert rest[..0] == [];
      CutNext(rest, i);
      StraddlesCrossed(rest[0], rest[1..], from, m, i - 1);
    } else if from <= a + Concat(rest) {
      if |a| >= |from| {
        DropBoth(a, Concat(rest), |from|);
        StraddlesCrossed(a[|from|..], rest, from, m - |from|, i);
      }
    } else {
      DropBoth(a, Concat(rest), 1);
      StraddlesCrossed(a[1..], rest, from, m - 1, i);
    }
  }

  lemma StraddledIsCrossed(writes: seq<bytes>, from: bytes)
    requires from != ""
    ensures Straddled(writes, from) <==> Crossed("", writes, from)
  {
    EmptyFirst(Concat(writes));
    if Crossed("", writes, from) {
      var m, i := CrossedStraddles("", writes, from);
      assert Straddles(writes, from, m, i);
    }
    if Straddled(writes, from) {
      var m, i :| Straddles(writes, from, m, i);
      StraddlesCrossed("", writes, from, m, i);
    }
  }

  // ----- An occurrence across a cut is lost.

  /** The pattern overlaps itself only by what any replacement begins with as well. */
  lemma ShortBorders(name: bytes, to: bytes, k: nat, tail: bytes)
    requires '"' !in name && name != "" && KEY <= to
    requires 0 < k <= |Pattern(name)| && Pattern(name) <= Pattern(name)[k..] + tail
    ensures Pattern(name)[k..] <= to
  {
    var from := Pattern(name);
    var s := from[k..] + tail;
    if k < |from| {
      assert s[0] == from[0] == '"' && s[0] == from[k];
      assert KEY == ['"', 'm', 'o', 'd', 'e', 'l', '"', ':', '"'];
      assert forall j :: 0 <= j < |name| ==> from[9 + j] == name[j];
      assert s[1] == from[1] == 'm';
      assert from[7] == ':' && k != 6;
      assert k == 8 || k == |from| - 1;
      if k == 8 {
        BorderAtValue(name, tail);
        assert from[k..] == "\"model\"" <= KEY;
      } else {
        assert from[k..] == "\"" <= KEY;
      }
    }
  }

  lemma PatternTail(name: bytes)
    ensures Pattern(name)[1..] == "model\":\"" + name + "\""
    ensures Pattern(name)[8..] == "\"" + name + "\"" && Pattern(name)[9..] == name + "\""
  {
  }

  /** A value ends at the next quote. */
  lemma ValueAt(t: bytes, name: bytes)
    requires '"' !in name && name + "\"" <= t
    ensures IndexByte(t, '"') == |name| < |t| && t[..|name|] == name
  {
    var quoted := name + "\"";
    assert t[..|quoted|] == quoted;
    assert t[..|name|] == quoted[..|name|] == name;
    assert t[|name|] == quoted[|name|] == '"';
    IndexByteIs(t, '"', |name|);
  }

  lemma PrefixDrop(s: bytes, t: bytes, k: nat)
    requires s <= t && k <= |s|
    ensures s[k..] <= t[k..]
  {
    assert t[k..][..|s| - k] == t[..|s|][k..];
  }

  /** Only the name `model` lets the pattern start again at its value. */
  lemma BorderAtValue(name: bytes, tail: bytes)
    requires '"' !in name && name != "" && Pattern(name) <= Pattern(name)[8..] + tail
    ensures name == "model"
  {
    var from := Pattern(name);
    var t := (from[8..] + tail)[1..];
    PatternTail(name);
    assert from[8..][1..] == name + "\"";
    DropBoth(from[8..], tail, 1);
    ValueAt(t, name);
    PrefixDrop(from, from[8..] + tail, 1);
    ModelFirst(from[1..], "\":\"" + name + "\"", t);
    ValueAt(t, "model");
  }

  lemma ModelFirst(s: bytes, more: bytes, t: bytes)
    requires s == "model" + more && more != "" && more[0] == '"' && s <= t
    ensures "model" + "\"" <= t
  {
    assert s[..6] == "model" + "\"" && t[..6] == s[..6];
  }

  /** What is left of a cut pattern comes out as it went in. */
  lemma {:induction false} RemainderStays(a: bytes, rest: seq<bytes>, name: bytes, to: bytes, k: nat, tail: bytes)
    requires '"' !in name && name != "" && KEY <= to
    requires 0 < k <= |Pattern(name)| && a + Concat(rest) == Pattern(name)[k..] + tail
    ensures Pattern(name)[k..] <= Pieces(a, rest, Pattern(name), to)
    decreases |rest|, |a|
  {
    var from := Pattern(name);
    if k == |from| {
      assert from[k..] == "";
    } else if a == "" {
      assert |a + Concat(rest)| > 0 && rest != [];
      PiecesNext(rest, from, to);
      RemainderStays(rest[0], rest[1..], name, to, k, tail);
    } else if from <= a {
      assert from <= a + Concat(rest);
      ShortBorders(name, to, k, tail);
      PiecesTake(a, rest, from, to);
      assert to <= Pieces(a, rest, from, to);
    } else {
      assert (a + Concat(rest))[0] == a[0] == from[k];
      DropBoth(a, Concat(rest), 1);
      DropBoth(from[k..], tail, 1);
      assert from[k..][1..] == from[k + 1..];
      RemainderStays(a[1..], rest, name, to, k + 1, tail);
      PiecesKeepHead(a, rest, from, to);
      assert from[k..] == [a[0]] + from[k + 1..];
    }
  }

  lemma PiecesKeepHead(a: bytes, rest: seq<bytes>, from: bytes, to: bytes)
    requires from != "" && a != "" && !(from <= a)
    ensures Pieces(a, rest, from, to) == [a[0]] + Pieces(a[1..], rest, from, to)
  {
    Associates([a[0]], ReplaceAll(a[1..], from, to), if rest == [] then "" else Pieces(rest[0], rest[1..], from, to));
  }

  /** Two names without quotes: their patterns do not both begin the same text. */
  lemma OnePattern(s: bytes, name: bytes, other: bytes)
    requires '"' !in name && '"' !in other
    requires Pattern(name) <= s && Pattern(other) <= s
    ensures name == other
  {
    ValueOf(s, name);
    ValueOf(s, other);
    assert s[9..][..|name|] == s[9..][..|other|];
  }

  lemma ValueOf(s: bytes, name: bytes)
    requires '"' !in name && Pattern(name) <= s
    ensures |s| > 9 && IndexByte(s[9..], '"') == |name| < |s[9..]| && s[9..][..|name|] == name
  {
    PatternTail(name);
    PrefixDrop(Pattern(name), s, 9);
    ValueAt(s[9..], name);
  }

  /** An occurrence across the cut behind `a` makes the two outputs differ at once. */
  lemma CutShows(a: bytes, rest: seq<bytes>, upstream: bytes, public: bytes)
    requires '"' !in upstream && '"' !in public && upstream != "" && upstream != public
    requires a != "" && |a| < |Pattern(upstream)| && Pattern(upstream) <= a + Concat(rest)
    ensures Pieces(a, rest, Pattern(upstream), Pattern(public))
            != ReplaceAll(a + Concat(rest), Pattern(upstream), Pattern(public))
  {
    var from, to := Pattern(upstream), Pattern(public);
    var whole := a + Concat(rest);
    CutKeepsPattern(a, rest, upstream, to);
    ReplacedFirst(whole, from, to);
    if Pieces(a, rest, from, to) == ReplaceAll(whole, from, to) {
      OnePattern(ReplaceAll(whole, from, to), upstream, public);
    }
  }

  lemma ReplacedFirst(s: bytes, from: bytes, to: bytes)
    requires from != "" && from <= s
    ensures to <= ReplaceAll(s, from, to)
  {
  }

  lemma CutKeepsPattern(a: bytes, rest: seq<bytes>, name: bytes, to: bytes)
    requires '"' !in name && name != "" && KEY <= to
    requires a != "" && |a| < |Pattern(name)| && Pattern(name) <= a + Concat(rest)
    ensures Pattern(name) <= Pieces(a, rest, Pattern(name), to)
  {
    var from, whole := Pattern(name), a + Concat(rest);
    var tail := whole[|from|..];
    SplitsOff(whole, from);
    FirstByteStays(a, rest, from, to);
    DropBoth(a, Concat(rest), 1);
    DropBoth(from, tail, 1);
    RemainderStays(a[1..], rest, name, to, 1, tail);
    assert a[0] == whole[0] == from[0];
    SplitsOff(from, [a[0]]);
    PrefixBehind([a[0]], from[1..], Pieces(a[1..], rest, from, to));
  }

  lemma SplitsOff(s: bytes, head: bytes)
    requires head <= s
    ensures s == head + s[|head|..]
  {
  }

  lemma PrefixBehind(head: bytes, a: bytes, b: bytes)
    requires a <= b
    ensures head + a <= head + b
  {
  }

  lemma FirstByteStays(a: bytes, rest: seq<bytes>, from: bytes, to: bytes)
    requires a != "" && |a| < |from|
    ensures Pieces(a, rest, from, to) == [a[0]] + Pieces(a[1..], rest, from, to)
  {
    PiecesKeepHead(a, rest, from, to);
  }

  lemma {:induction false} CrossedDiffers(a: bytes, rest: seq<bytes>, upstream: bytes, public: bytes)
    requires '"' !in upstream && '"' !in public && upstream != "" && upstream != public
    requires Crossed(a, rest, Pattern(upstream))
    ensures Pieces(a, rest, Pattern(upstream), Pattern(public))
            != ReplaceAll(a + Concat(rest), Pattern(upstream), Pattern(public))
    decreases |rest|, |a|
  {
    var from, to := Pattern(upstream), Pattern(public);
    if a == "" {
      PiecesNext(rest, from, to);
      CrossedDiffers(rest[0], rest[1..], upstream, public);
    } else if from <= a + Concat(rest) {
      if |a| < |from| {
        CutShows(a, rest, upstream, public);
      } else {
        assert from <= a;
        PiecesTake(a, rest, from, to);
        CrossedDiffers(a[|from|..], rest, upstream, public);
        SameBehind(to, Pieces(a[|from|..], rest, from, to), ReplaceAll(a[|from|..] + Concat(rest), from, to));
      }
    } else {
      PiecesSkip(a, rest, from, to);
      CrossedDiffers(a[1..], rest, upstream, public);
      SameBehind([a[0]], Pieces(a[1..], rest, from, to), ReplaceAll(a[1..] + Concat(rest), from, to));
    }
  }

  lemma SameBehind(head: bytes, x: bytes, y: bytes)
    requires x != y
    ensures head + x != head + y
  {
    assert (head + x)[|head|..] == x && (head + y)[|head|..] == y;
  }

  // ----- The client's view.

  lemma {:induction false} PublicAllIsPieces(writes: seq<bytes>, upstream: bytes, public: bytes)
    requires upstream != "" && upstream != public
    ensures PublicAll(writes, upstream, public) == Pieces("", writes, Pattern(upstream), Pattern(public))
  {
    if writes == [] {
      assert Pieces("", writes, Pattern(upstream), Pattern(public)) == "" + "";
    } else {
      var before, last := writes[..|writes| - 1], writes[|writes| - 1];
      PublicAllIsPieces(before, upstream, public);
      PiecesLast(writes, Pattern(upstream), Pattern(public));
    }
  }

  lemma PiecesLast(writes: seq<bytes>, from: bytes, to: bytes)
    requires from != "" && writes != []
    ensures Pieces("", writes, from, to)
            == Pieces("", writes[..|writes| - 1], from, to) + ReplaceAll(writes[|writes| - 1], from, to)
  {
    var before, last := writes[..|writes| - 1], writes[|writes| - 1];
    assert writes == before + [last];
    PiecesSnoc("", before, last, from, to);
  }

  lemma {:induction false} PiecesSnoc(a: bytes, rest: seq<bytes>, last: bytes, from: bytes, to: bytes)
    requires from != ""
    ensures Pieces(a, rest + [last], from, to) == Pieces(a, rest, from, to) + ReplaceAll(last, from, to)
    decreases |rest|
  {
    if rest == [] {
      assert [last][1..] == [] && ReplaceAll(last, from, to) + "" == ReplaceAll(last, from, to);
      assert ReplaceAll(a, from, to) + "" == ReplaceAll(a, from, to);
    } else {
      assert (rest + [last])[1..] == rest[1..] + [last];
      PiecesSnoc(rest[0], rest[1..], last, from, to);
      Associates(ReplaceAll(a, from, to), Pieces(rest[0], rest[1..], from, to), ReplaceAll(last, from, to));
    }
  }

  /** However the stream is written, the client gets the replacement of the whole if none is straddled. */
  lemma UnstraddledIsWhole(writes: seq<bytes>, upstream: bytes, public: bytes)
    requires upstream != "" && upstream != public ==> !Straddled(writes, Pattern(upstream))
    ensures PublicAll(writes, upstream, public) == Public(Concat(writes), upstream, public)
  {
    if upstream != "" && upstream != public {
      StraddledIsCrossed(writes, Pattern(upstream));
      PublicAllIsPieces(writes, upstream, public);
      UncrossedIsWhole("", writes, Pattern(upstream), Pattern(public));
      EmptyFirst(Concat(writes));
    } else {
      PublicAllSame(writes, upstream, public);
    }
  }

  lemma {:induction false} PublicAllSame(writes: seq<bytes>, upstream: bytes, public: bytes)
    requires upstream == "" || upstream == public
    ensures PublicAll(writes, upstream, public) == Concat(writes)
  {
    if writes == [] {
    } else {
      PublicAllSame(writes[..|writes| - 1], upstream, public);
      ConcatSnoc(writes);
    }
  }

  /**
    For names without quotes the client gets the replacement of the whole
    stream exactly when no cut between two writes falls inside an occurrence
    that is replaced in the whole.
   */
  lemma WholeUnlessStraddled(writes: seq<bytes>, upstream: bytes, public: bytes)
    requires '"' !in upstream && '"' !in public && upstream != "" && upstream != public
    ensures PublicAll(writes, upstream, public) == Public(Concat(writes), upstream, public)
            <==> !Straddled(writes, Pattern(upstream))
  {
    StraddledIsCrossed(writes, Pattern(upstream));
    if Straddled(writes, Pattern(upstream)) {
      PublicAllIsPieces(writes, upstream, public);
      CrossedDiffers("", writes, upstream, public);
      EmptyFirst(Concat(writes));
    } else {
      UnstraddledIsWhole(writes, upstream, public);
    }
  }

  // ----- Names with quotes.

  lemma {:induction false} TooShort(s: bytes, from: bytes, to: bytes)
    requires |s| < |from|
    ensures ReplaceAll(s, from, to) == s
    decreases |s|
  {
    if s == "" {
    } else {
      TooShort(s[1..], from, to);
    }
  }

  lemma FirstReplaced(from: bytes, tail: bytes, to: bytes)
    requires from != "" && |tail| < |from|
    ensures ReplaceAll(from + tail, from, to) == to + tail && Taken(from + tail, from, 0)
  {
    assert (from + tail)[|from|..] == tail;
    TooShort(tail, from, to);
  }

  /** The upstream name `x"model":"x`, renamed `x`. */
  function Twice(name: bytes): bytes {
    name + KEY + name
  }

  lemma TwicePattern(name: bytes)
    ensures Pattern(name) == KEY + name + "\""
    ensures Pattern(Twice(name)) == KEY + name + (KEY + name) + "\""
    ensures (KEY + name) + Pattern(Twice(name)) == Pattern(Twice(name)) + ((KEY + name)[1..] + "\"")
    ensures (KEY + name) + Pattern(name) == Pattern(name) + ((KEY + name)[1..] + "\"")
  {
    assert (KEY + name)[0] == '"';
  }

  lemma ConcatTwo(a: bytes, b: bytes)
    ensures Concat([a, b]) == a + b && Cut([a, b], 1) == |a|
  {
    assert [a, b][1..] == [b] && Concat([b]) == b + Concat([]) == b;
    assert [a, b][..1] == [a] && Concat([a]) == a + Concat([]) == a;
  }

  lemma CutUnnoticed(u: bytes, from: bytes, tail: bytes, to: bytes)
    requires 0 < |u| < |from| && |tail| < |from| && u + from == from + tail && u + to == to + tail
    ensures Straddled([u, from], from)
    ensures ReplaceAll(u, from, to) + ReplaceAll(from, from, to) == ReplaceAll(Concat([u, from]), from, to)
  {
    ConcatTwo(u, from);
    FirstReplaced(from, tail, to);
    FirstReplaced(from, "", to);
    assert from + "" == from && to + "" == to;
    TooShort(u, from, to);
    assert Straddles([u, from], from, 0, 1);
  }

  lemma PublicTwo(a: bytes, b: bytes, upstream: bytes, public: bytes)
    ensures PublicAll([a, b], upstream, public) == Public(a, upstream, public) + Public(b, upstream, public)
  {
    assert [a, b][..1] == [a] && PublicAll([a], upstream, public) == "" + Public(a, upstream, public);
    EmptyFirst(Public(a, upstream, public));
  }

  /** With quotes in the names a cut inside an occurrence may make no difference. */
  lemma QuotedNameGoesUnnoticed(name: bytes)
    ensures var upstream, writes := Twice(name), [KEY + name, Pattern(Twice(name))];
            && Straddled(writes, Pattern(upstream))
            && PublicAll(writes, upstream, name) == Public(Concat(writes), upstream, name)
  {
    var u := KEY + name;
    TwicePattern(name);
    CutUnnoticed(u, Pattern(Twice(name)), u[1..] + "\"", Pattern(name));
    PublicTwo(u, Pattern(Twice(name)), Twice(name), name);
  }

  // ----- Writes that end lines.

  predicate EndsLines(writes: seq<bytes>) {
    forall i :: 0 <= i < |writes| ==> writes[i] != "" && writes[i][|writes[i]| - 1] == '\n'
  }

  lemma ConcatSnoc(writes: seq<bytes>)
    requires writes != []
    ensures Concat(writes) == Concat(writes[..|writes| - 1]) + writes[|writes| - 1]
  {
    var before, last := writes[..|writes| - 1], writes[|writes| - 1];
    assert writes == before + [last];
    ConcatAppend(before, [last]);
    assert Concat([last]) == last + Concat([]);
  }

  lemma {:induction false} ConcatEndsLine(writes: seq<bytes>)
    requires EndsLines(writes)
    ensures Concat(writes) == "" || Concat(writes)[|Concat(writes)| - 1] == '\n'
  {
    if writes == [] {
    } else {
      ConcatSnoc(writes);
    }
  }

  /** What is replaced is an occurrence. */
  lemma {:induction false} TakenOccurs(s: bytes, from: bytes, m: nat)
    requires from != "" && Taken(s, from, m)
    ensures m <= |s| && from <= s[m..]
    decreases |s|
  {
    if from <= s {
      if m == 0 {
        assert s[0..] == s;
      } else {
        TakenOccurs(s[|from|..], from, m - |from|);
        DropTwice(s, |from|, m);
      }
    } else {
      TakenOccurs(s[1..], from, m - 1);
      DropTwice(s, 1, m);
    }
  }

  lemma DropTwice(s: bytes, k: nat, m: nat)
    requires k <= m <= |s|
    ensures s[k..][m - k..] == s[m..]
  {
  }

  lemma PrefixThere(s: bytes, from: bytes, m: nat)
    requires m <= |s| && from <= s[m..]
    ensures m + |from| <= |s| && s[m..m + |from|] == from
  {
  }

  /**
    For names without newlines and writes that end lines, the client receives
    the replacement of the whole stream, so the sizes of the writes do not
    matter.
   */
  lemma PiecewiseIsWhole(writes: seq<bytes>, upstream: bytes, public: bytes)
    requires '\n' !in upstream
    requires EndsLines(writes)
    ensures PublicAll(writes, upstream, public) == Public(Concat(writes), upstream, public)
  {
    if upstream != "" && upstream != public {
      forall m, i
        ensures !Straddles(writes, Pattern(upstream), m, i)
      {
        if Straddles(writes, Pattern(upstream), m, i) {
          LineEndInside(writes, Pattern(upstream), m, i);
          PatternNoNewline(upstream);
        }
      }
    }
    UnstraddledIsWhole(writes, upstream, public);
  }

  lemma LineEndInside(writes: seq<bytes>, from: bytes, m: nat, i: nat)
    requires from != "" && EndsLines(writes) && Straddles(writes, from, m, i)
    ensures '\n' in from
  {
    var front, back := Concat(writes[..i]), Concat(writes[i..]);
    assert writes == writes[..i] + writes[i..];
    ConcatAppend(writes[..i], writes[i..]);
    ConcatEndsLine(writes[..i]);
    TakenOccurs(Concat(writes), from, m);
    PrefixThere(Concat(writes), from, m);
    assert (front + back)[|front| - 1] == '\n';
    assert from[|front| - 1 - m] == (front + back)[m..m + |from|][|front| - 1 - m];
  }

  lemma PatternNoNewline(model: bytes)
    requires '\n' !in model
    ensures '\n' !in Pattern(model)
  {
  }
}
