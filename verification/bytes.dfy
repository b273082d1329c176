/**
  Go strings and byte slices.  A byte is written as the character with that
  code, so a Go string is a Dafny string; nothing below assumes codes stop at
  255.
 */
module Bytes {
  import opened Sequences

  type bytes = string

  datatype Option<+T> = None | Some(value: T)

  function Max(a: int, b: int): (m: int)
    ensures m >= a && m >= b && (m == a || m == b)
  {
    if a > b then a else b
  }

  function TrimPrefix(s: bytes, prefix: bytes): (r: bytes)
    ensures if prefix <= s then s == prefix + r else r == s
  {
    if prefix <= s then s[|prefix|..] else s
  }

  predicate AsciiSpace(c: char) {
    c == ' ' || '\t' <= c <= '\r'
  }

  predicate Wide2(a: char, b: char) {
    a as int == 0xC2 && (b as int == 0x85 || b as int == 0xA0)
  }

  /** The UTF-8 encodings of U+1680, U+2000..200A, U+2028, U+2029, U+202F, U+205F and U+3000. */
  predicate Wide3(a: char, b: char, c: char) {
    || (a as int == 0xE1 && b as int == 0x9A && c as int == 0x80)
    || (a as int == 0xE2 && b as int == 0x80 &&
        (0x80 <= c as int <= 0x8A || 0xA8 <= c as int <= 0xA9 || c as int == 0xAF))
    || (a as int == 0xE2 && b as int == 0x81 && c as int == 0x9F)
    || (a as int == 0xE3 && b as int == 0x80 && c as int == 0x80)
  }

  /** How many bytes the white-space character at the front takes; 0 if there is none. */
  function LeadingSpace(s: bytes): (n: nat)
    ensures n <= |s|
  {
    if |s| >= 1 && AsciiSpace(s[0]) then 1
    else if |s| >= 2 && Wide2(s[0], s[1]) then 2
    else if |s| >= 3 && Wide3(s[0], s[1], s[2]) then 3
    else 0
  }

  function TrailingSpace(s: bytes): (n: nat)
    ensures n <= |s|
  {
    var k := |s|;
    if k >= 1 && AsciiSpace(s[k - 1]) then 1
    else if k >= 2 && Wide2(s[k - 2], s[k - 1]) then 2
    else if k >= 3 && Wide3(s[k - 3], s[k - 2], s[k - 1]) then 3
    else 0
  }

  /** The UTF-8 encoding of a code point below 0x10000. */
  function Utf8(p: nat): bytes
    requires p < 0x1_0000
  {
    if p < 0x80 then [p as char]
    else if p < 0x800 then [(0xC0 + p / 0x40) as char, (0x80 + p % 0x40) as char]
    else [(0xE0 + p / 0x1000) as char, (0x80 + p / 0x40 % 0x40) as char, (0x80 + p % 0x40) as char]
  }

  /** Unicode's White_Space below 0x10000, which is all of it. */
  predicate WhiteSpace(p: nat) {
    || 9 <= p <= 13 || p == 0x20 || p == 0x85 || p == 0xA0 || p == 0x1680 || 0x2000 <= p <= 0x200A
    || p == 0x2028 || p == 0x2029 || p == 0x202F || p == 0x205F || p == 0x3000
  }

  /** The trimmed characters are exactly Unicode's white space. */
  lemma TrimsWhiteSpace(p: nat)
    requires p < 0x1_0000
    ensures WhiteSpace(p) ==> LeadingSpace(Utf8(p)) == |Utf8(p)| == TrailingSpace(Utf8(p))
    ensures !WhiteSpace(p) ==> LeadingSpace(Utf8(p)) == 0 == TrailingSpace(Utf8(p))
  {
  }

  function TrimLeft(s: bytes): bytes {
    var n := LeadingSpace(s);
    if n == 0 then s else TrimLeft(s[n..])
  }

  function TrimRight(s: bytes): bytes {
    var n := TrailingSpace(s);
    if n == 0 then s else TrimRight(s[..|s| - n])
  }

  /** `strings.TrimSpace`. */
  function TrimSpace(s: bytes): bytes {
    TrimRight(TrimLeft(s))
  }

  /** `strings.TrimRight(s, "\r")`. */
  function TrimCR(s: bytes): bytes {
    if s != [] && s[|s| - 1] == '\r' then TrimCR(s[..|s| - 1]) else s
  }

  lemma {:induction false} TrimLeftAppendCR(s: bytes)
    ensures TrimLeft(s + "\r") == if TrimLeft(s) == "" then "" else TrimLeft(s) + "\r"
  {
    var n := LeadingSpace(s);
    if s == "" {
      assert s + "\r" == "\r" && "\r"[1..] == "";
    } else {
      assert LeadingSpace(s + "\r") == n;
      if n != 0 {
        assert (s + "\r")[n..] == s[n..] + "\r";
        TrimLeftAppendCR(s[n..]);
      }
    }
  }

  /** A carriage return at the end of a line makes no difference once it is trimmed. */
  lemma TrimSpaceAppendCR(s: bytes)
    ensures TrimSpace(s + "\r") == TrimSpace(s)
  {
    TrimLeftAppendCR(s);
    var t := TrimLeft(s);
    assert (t + "\r")[..|t|] == t;
  }

  lemma {:induction false} TrimSpaceTrimCR(s: bytes)
    ensures TrimSpace(TrimCR(s)) == TrimSpace(s)
  {
    if s == [] || s[|s| - 1] != '\r' {
    } else {
      TrimSpaceTrimCR(s[..|s| - 1]);
      TrimSpaceAppendCR(s[..|s| - 1]);
      assert s == s[..|s| - 1] + "\r";
    }
  }

  lemma {:induction false} TrimLeftIs(s: bytes)
    ensures LeadingSpace(TrimLeft(s)) == 0
    ensures |TrimLeft(s)| <= |s| && TrimLeft(s) == s[|s| - |TrimLeft(s)|..]
  {
    var n := LeadingSpace(s);
    if n == 0 {
    } else {
      TrimLeftIs(s[n..]);
    }
  }

  lemma {:induction false} TrimRightIs(s: bytes)
    ensures TrailingSpace(TrimRight(s)) == 0
    ensures TrimRight(s) <= s
  {
    var n := TrailingSpace(s);
    if n == 0 {
    } else {
      TrimRightIs(s[..|s| - n]);
    }
  }

  /** Nothing but white-space characters. */
  predicate Blank(s: bytes)
    decreases |s|
  {
    s == "" || (LeadingSpace(s) > 0 && Blank(s[LeadingSpace(s)..]))
  }

  /** The same, seen from the end. */
  predicate BlankBack(s: bytes)
    decreases |s|
  {
    s == "" || (TrailingSpace(s) > 0 && BlankBack(s[..|s| - TrailingSpace(s)]))
  }

  lemma LeadingSame(s: bytes, n: nat, more: bytes)
    requires n == LeadingSpace(s) > 0
    ensures LeadingSpace(s[..n] + more) == n && (s[..n] + more)[n..] == more
  {
  }

  lemma CutInTwo(s: bytes, k: nat)
    requires k <= |s|
    ensures s == s[..k] + s[k..]
  {
  }

  lemma TrailingEnd(s: bytes, n: nat, t: bytes)
    requires n == TrailingSpace(s) > 0 && n <= |t| && t[|t| - n..] == s[|s| - n..]
    ensures TrailingSpace(t) == n
  {
    var end := s[|s| - n..];
    assert end[n - 1] == s[|s| - 1] && t[|t| - 1] == end[n - 1];
    if n > 1 {
      assert end[n - 2] == s[|s| - 2] && t[|t| - 2] == end[n - 2];
    }
    if n > 2 {
      assert end[n - 3] == s[|s| - 3] && t[|t| - 3] == end[n - 3];
    }
  }

  lemma TrailingSame(s: bytes, n: nat, more: bytes)
    requires n == TrailingSpace(s) > 0
    ensures var trail := more + s[|s| - n..];
            TrailingSpace(trail) == n && trail[..|trail| - n] == more
  {
    var trail := more + s[|s| - n..];
    assert trail[|trail| - n..] == s[|s| - n..];
    TrailingEnd(s, n, trail);
  }

  lemma {:induction false} TrimLeftCuts(s: bytes) returns (lead: bytes)
    ensures s == lead + TrimLeft(s) && Blank(lead) && LeadingSpace(TrimLeft(s)) == 0
    decreases |s|
  {
    var n := LeadingSpace(s);
    if n == 0 {
      lead := "";
    } else {
      var more := TrimLeftCuts(s[n..]);
      lead := s[..n] + more;
      LeadingSame(s, n, more);
      CutInTwo(s, n);
      Associates(s[..n], more, TrimLeft(s[n..]));
    }
  }

  lemma {:induction false} TrimRightCuts(s: bytes) returns (trail: bytes)
    ensures s == TrimRight(s) + trail && BlankBack(trail) && TrailingSpace(TrimRight(s)) == 0
    decreases |s|
  {
    var n := TrailingSpace(s);
    if n == 0 {
      trail := "";
    } else {
      var k := |s| - n;
      var more := TrimRightCuts(s[..k]);
      trail := more + s[k..];
      TrailingSame(s, n, more);
      CutInTwo(s, k);
      Associates(TrimRight(s[..k]), more, s[k..]);
    }
  }

  /** Trimming cuts white space off both ends, and all there is. */
  lemma TrimSpaceCuts(s: bytes) returns (lead: bytes, trail: bytes)
    ensures s == lead + TrimSpace(s) + trail && Blank(lead) && BlankBack(trail)
    ensures LeadingSpace(TrimSpace(s)) == 0 && TrailingSpace(TrimSpace(s)) == 0
  {
    lead := TrimLeftCuts(s);
    var t := TrimLeft(s);
    trail := TrimRightCuts(t);
    TrimSpaceIs(s);
    NoLead(t, TrimRight(t));
  }

  lemma NoLead(t: bytes, u: bytes)
    requires LeadingSpace(t) == 0 && u <= t
    ensures LeadingSpace(u) == 0
  {
  }

  /** What is trimmed stays trimmed, and is a piece of the original. */
  lemma TrimSpaceIs(s: bytes)
    ensures TrimSpace(TrimSpace(s)) == TrimSpace(s)
    ensures forall c :: c in TrimSpace(s) ==> c in s
  {
    TrimLeftIs(s);
    var t := TrimLeft(s);
    TrimRightIs(t);
    var u := TrimRight(t);
    assert LeadingSpace(u) == 0 by {
      if |u| >= 3 {
        assert u[0] == t[0] && u[1] == t[1] && u[2] == t[2];
      } else if |u| >= 2 {
        assert u[0] == t[0] && u[1] == t[1];
      } else if |u| >= 1 {
        assert u[0] == t[0];
      }
    }
    forall c | c in u
      ensures c in s
    {
      var i :| 0 <= i < |u| && u[i] == c;
      assert t[i] == c;
      assert s[|s| - |t| + i] == c;
    }
  }

  /** The parts that are not blank, trimmed. */
  function NonBlank(parts: seq<bytes>): (names: seq<bytes>)
  {
    if parts == [] then []
    else (if TrimSpace(parts[0]) == "" then [] else [TrimSpace(parts[0])]) + NonBlank(parts[1..])
  }

  lemma {:induction false} NonBlankAppend(a: seq<bytes>, b: seq<bytes>)
    ensures NonBlank(a + b) == NonBlank(a) + NonBlank(b)
  {
    if a == [] {
      assert a + b == b;
    } else {
      assert (a + b)[1..] == a[1..] + b;
      NonBlankAppend(a[1..], b);
      Associates(if TrimSpace(a[0]) == "" then [] else [TrimSpace(a[0])], NonBlank(a[1..]), NonBlank(b));
    }
  }

  lemma NonBlankStep(parts: seq<bytes>, i: nat)
    requires i < |parts|
    ensures NonBlank(parts[..i + 1])
            == NonBlank(parts[..i]) + if TrimSpace(parts[i]) == "" then [] else [TrimSpace(parts[i])]
  {
    assert parts[..i + 1] == parts[..i] + [parts[i]] && [parts[i]][1..] == [];
    NonBlankAppend(parts[..i], [parts[i]]);
  }

  // ----- Splitting and joining at a separator byte.

  function IndexByte(s: bytes, c: char): (i: nat)
    ensures i <= |s| && c !in s[..i]
    ensures i < |s| ==> s[i] == c
  {
    if s == [] || s[0] == c then 0 else 1 + IndexByte(s[1..], c)
  }

  lemma {:induction false} IndexByteIs(s: bytes, c: char, i: nat)
    requires i <= |s| && c !in s[..i]
    requires i < |s| ==> s[i] == c
    ensures IndexByte(s, c) == i
  {
    if i == 0 {
    } else {
      assert s[0] == s[..i][0] && s[1..][..i - 1] == s[..i][1..];
      IndexByteIs(s[1..], c, i - 1);
    }
  }

  lemma {:induction false} IndexByteAtMost(s: bytes, c: char, k: nat)
    requires k < |s| && s[k] == c
    ensures IndexByte(s, c) <= k
  {
    if k == 0 || s[0] == c {
    } else {
      IndexByteAtMost(s[1..], c, k - 1);
    }
  }

  /** `strings.Split(s, c)`: never empty. */
  function Split(s: bytes, c: char): (parts: seq<bytes>)
    ensures parts != []
    decreases |s|
  {
    var i := IndexByte(s, c);
    if i == |s| then [s] else [s[..i]] + Split(s[i + 1..], c)
  }

  function Join(parts: seq<bytes>, c: char): bytes
  {
    if parts == [] then ""
    else if |parts| == 1 then parts[0]
    else parts[0] + [c] + Join(parts[1..], c)
  }

  lemma {:induction false} JoinSplit(s: bytes, c: char)
    ensures Join(Split(s, c), c) == s
    ensures forall i :: 0 <= i < |Split(s, c)| ==> c !in Split(s, c)[i]
    decreases |s|
  {
    var i := IndexByte(s, c);
    if i == |s| {
    } else {
      JoinSplit(s[i + 1..], c);
      assert s == s[..i] + [c] + s[i + 1..];
      assert Split(s, c)[1..] == Split(s[i + 1..], c);
    }
  }

  lemma {:induction false} SplitJoin(parts: seq<bytes>, c: char)
    requires parts != []
    requires forall i :: 0 <= i < |parts| ==> c !in parts[i]
    ensures Split(Join(parts, c), c) == parts
  {
    var s := Join(parts, c);
    if |parts| == 1 {
      IndexByteIs(s, c, |s|);
    } else {
      var i := |parts[0]|;
      assert s[..i] == parts[0] && s[i + 1..] == Join(parts[1..], c);
      IndexByteIs(s, c, i);
      SplitJoin(parts[1..], c);
    }
  }

  /** Splitting text on both sides of a separator. */
  lemma {:induction false} SplitAcross(a: bytes, c: char, b: bytes)
    ensures Split(a + [c] + b, c) == Split(a, c) + Split(b, c)
    decreases |a|
  {
    var i := IndexByte(a, c);
    var s := a + [c] + b;
    if i == |a| {
      IndexByteIs(s, c, i);
      assert s[..i] == a && s[i + 1..] == b;
    } else {
      IndexByteIs(s, c, i);
      assert s[..i] == a[..i] && s[i + 1..] == a[i + 1..] + [c] + b;
      SplitAcross(a[i + 1..], c, b);
      Associates([a[..i]], Split(a[i + 1..], c), Split(b, c));
    }
  }

  lemma SplitAlone(s: bytes, c: char)
    requires c !in s
    ensures Split(s, c) == [s]
  {
    IndexByteIs(s, c, |s|);
  }

  /** `strings.ReplaceAll` and `bytes.ReplaceAll` for a non-empty pattern: leftmost matches, not overlapping. */
  function ReplaceAll(s: bytes, from: bytes, to: bytes): bytes
    requires from != ""
    decreases |s|
  {
    if s == "" then ""
    else if from <= s then to + ReplaceAll(s[|from|..], from, to)
    else [s[0]] + ReplaceAll(s[1..], from, to)
  }

  // ----- Lists of byte strings.

  function Concat(parts: seq<bytes>): bytes {
    if parts == [] then "" else parts[0] + Concat(parts[1..])
  }

  lemma {:induction false} ConcatAppend(a: seq<bytes>, b: seq<bytes>)
    ensures Concat(a + b) == Concat(a) + Concat(b)
  {
    if a == [] {
      assert a + b == b;
    } else {
      assert (a + b)[1..] == a[1..] + b;
      ConcatAppend(a[1..], b);
    }
  }

  // ----- Go's order on strings.

  /** Go's `>` on strings: byte by byte, a prefix before what it begins. */
  predicate After(a: string, b: string)
    decreases |a|
  {
    a != "" && (b == "" || a[0] > b[0] || (a[0] == b[0] && After(a[1..], b[1..])))
  }

  /** At the first byte that differs the greater decides; if none does, the longer. */
  lemma {:induction false} AfterMeans(a: string, b: string, k: nat)
    requires k <= |a| && k <= |b| && a[..k] == b[..k]
    requires k < |a| && k < |b| ==> a[k] != b[k]
    requires k == |a| || k == |b| || a[k] != b[k]
    ensures After(a, b) <==> k < |a| && (k == |b| || a[k] > b[k])
    decreases |a|
  {
    if k == 0 {
    } else {
      assert a[0] == a[..k][0] == b[..k][0] == b[0];
      assert a[1..][..k - 1] == a[..k][1..] == b[..k][1..] == b[1..][..k - 1];
      AfterMeans(a[1..], b[1..], k - 1);
    }
  }

  lemma {:induction false} AfterTotal(a: string, b: string)
    ensures !(After(a, b) && After(b, a))
    ensures a != b ==> After(a, b) || After(b, a)
    decreases |a|
  {
    if a == "" || b == "" {
    } else {
      AfterTotal(a[1..], b[1..]);
      assert a == [a[0]] + a[1..] && b == [b[0]] + b[1..];
    }
  }

  lemma {:induction false} AfterTransitive(a: string, b: string, c: string)
    requires After(a, b) && After(b, c)
    ensures After(a, c)
    decreases |a|
  {
    if c == "" {
    } else if a[0] == b[0] == c[0] {
      AfterTransitive(a[1..], b[1..], c[1..]);
    }
  }

  lemma NotAfterChain(a: string, b: string, c: string)
    requires a == b || !After(a, b)
    requires !After(b, c)
    ensures !After(a, c)
  {
    AfterTotal(a, b);
    AfterTotal(b, c);
    if After(a, c) && a != b {
      AfterTransitive(b, a, c);
    }
  }

  // ----- Decimal numbers.

  function Itoa(n: nat): (s: bytes)
    ensures s != "" && forall i :: 0 <= i < |s| ==> '0' <= s[i] <= '9'
  {
    var digit := '0' + (n % 10) as char;
    if n < 10 then [digit] else Itoa(n / 10) + [digit]
  }

  /** The value of a string of digits. */
  function Value(s: bytes): nat
    requires forall i :: 0 <= i < |s| ==> '0' <= s[i] <= '9'
  {
    if s == [] then 0 else 10 * Value(s[..|s| - 1]) + (s[|s| - 1] - '0') as nat
  }

  lemma {:induction false} ValueItoa(n: nat)
    ensures Value(Itoa(n)) == n
  {
    var s := Itoa(n);
    if n >= 10 {
      ValueItoa(n / 10);
      assert s[..|s| - 1] == Itoa(n / 10);
    } else {
      assert s[..0] == [];
    }
  }

  /** A number below ten is its digit; ten times a number and a digit is written digit behind number. */
  lemma ItoaDigits(n: nat, d: nat)
    requires d < 10
    ensures Itoa(d) == ["0123456789"[d]]
    ensures n > 0 ==> Itoa(10 * n + d) == Itoa(n) + ["0123456789"[d]]
  {
    assert (10 * n + d) / 10 == n && (10 * n + d) % 10 == d;
    assert '0' + d as char == "0123456789"[d];
  }

  /** `strconv.FormatInt(n, 10)`. */
  function Decimal(n: int): bytes {
    if n < 0 then "-" + Itoa(-n) else Itoa(n)
  }
}
